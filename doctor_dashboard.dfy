/**
 * The doctor dashboard: role guard, patient lookup by `PID-` prefix, the
 * bounded most-recent-first cache of looked-up patients, and the timeline order.
 */
module Doctor {
  import opened Wrappers
  import opened Text
  import opened Storage

  const MAX_RECENT := 5
  const PATIENT_ID_PREFIX := "PID-"

  /** Where the mount effect navigates: home without a session or for any role but doctor. */
  function DoctorGuard(items: Items): (target: Option<string>)
    ensures target.None? <==> GetUser(items).Some? && GetUser(items).value.role == DOCTOR_ROLE
    ensures target.Some? ==> target.value == HOME_ROUTE
  {
    match GetUser(items)
    case None => Some(HOME_ROUTE)
    case Some(u) => if u.role != DOCTOR_ROLE then Some(HOME_ROUTE) else None
  }

  /** The profile part of a snapshot; every field is "" when no profile is saved. */
  function SummaryOf(items: Items): (s: PatientSummary)
    ensures GetProfile(items).None? ==> s == PatientSummary("", "", "", "")
    ensures GetProfile(items).Some? ==>
      var p := GetProfile(items).value;
      s == PatientSummary(p.dateOfBirth, p.gender, p.medicalConditions, p.allergies)
  {
    match GetProfile(items)
    case None => PatientSummary("", "", "", "")
    case Some(p) => PatientSummary(p.dateOfBirth, p.gender, p.medicalConditions, p.allergies)
  }

  /** `mockPatient`: the snapshot a successful lookup composes from the (global) stores. */
  function Lookup(id: string, input: string, items: Items): (p: PatientData)
    requires StartsWith(input, PATIENT_ID_PREFIX)
    ensures p.id == id && p.patientId == input
    ensures p.name == "Patient " + input[|PATIENT_ID_PREFIX|..]
    ensures p.records == GetRecords(items).GetOr([])
    ensures p.profile == SummaryOf(items)
  {
    PatientData(id, input, "Patient " + input[4..], GetRecords(items).GetOr([]), SummaryOf(items))
  }

  /** `recentPatients.some(p => p.patientId === pid)`. */
  predicate HasPatient(xs: seq<PatientData>, pid: string)
    ensures xs == [] ==> !HasPatient(xs, pid)
    ensures xs != [] ==> (HasPatient(xs, pid) <==> xs[0].patientId == pid || HasPatient(xs[1..], pid))
  {
    exists k :: 0 <= k < |xs| && xs[k].patientId == pid
  }

  function Min(a: int, b: int): int {
    if a <= b then a else b
  }

  /** The cache update: unchanged if the id is present, else `[p, ...xs].slice(0, 5)`. */
  function AddRecent(p: PatientData, xs: seq<PatientData>): (r: seq<PatientData>)
    ensures HasPatient(xs, p.patientId) ==> r == xs
    ensures !HasPatient(xs, p.patientId) ==>
      && |r| == Min(|xs| + 1, MAX_RECENT)
      && r[0] == p && r[1..] == xs[..|r| - 1]
  {
    if HasPatient(xs, p.patientId) then xs
    else
      var r := ([p] + xs)[..Min(|xs| + 1, MAX_RECENT)];
      assert r[1..] == xs[..|r| - 1];
      r
  }

  /** At most five entries, no two with the same patient id. */
  ghost predicate RecentValid(xs: seq<PatientData>) {
    && |xs| <= MAX_RECENT
    && forall i, j :: 0 <= i < j < |xs| ==> xs[i].patientId != xs[j].patientId
  }

  /** The bound and the absence of duplicates survive every update, and the id is then cached. */
  lemma AddRecentKeepsValid(p: PatientData, xs: seq<PatientData>)
    requires RecentValid(xs)
    ensures RecentValid(AddRecent(p, xs))
    ensures HasPatient(AddRecent(p, xs), p.patientId)
  {
    var r := AddRecent(p, xs);
    if !HasPatient(xs, p.patientId) {
      forall i, j | 0 <= i < j < |r| ensures r[i].patientId != r[j].patientId {
        assert r[j] == xs[j - 1];
        if i > 0 {
          assert r[i] == xs[i - 1];
        }
      }
      assert r[0].patientId == p.patientId;
    }
  }

  /** Looking up the same patient twice caches it once. */
  lemma AddRecentIdempotent(p: PatientData, xs: seq<PatientData>)
    ensures AddRecent(p, AddRecent(p, xs)) == AddRecent(p, xs)
  {
    var r := AddRecent(p, xs);
    if !HasPatient(xs, p.patientId) {
      assert r[0].patientId == p.patientId;
    }
  }

  /** Lexicographic order on date strings; on ISO `YYYY-MM-DD` dates it is the chronological order. */
  predicate DateLe(a: string, b: string)
    decreases |a|
  {
    a == [] || (b != [] && (a[0] < b[0] || (a[0] == b[0] && DateLe(a[1..], b[1..]))))
  }

  lemma {:induction false} DateLeReflexive(a: string)
    ensures DateLe(a, a)
    decreases |a|
  {
    if a != [] { DateLeReflexive(a[1..]); }
  }

  lemma {:induction false} DateLeTotal(a: string, b: string)
    ensures DateLe(a, b) || DateLe(b, a)
    decreases |a|
  {
    if a != [] && b != [] && a[0] == b[0] { DateLeTotal(a[1..], b[1..]); }
  }

  lemma {:induction false} DateLeTransitive(a: string, b: string, c: string)
    requires DateLe(a, b) && DateLe(b, c)
    ensures DateLe(a, c)
    decreases |a|
  {
    if a != [] && a[0] == b[0] && b[0] == c[0] {
      DateLeTransitive(a[1..], b[1..], c[1..]);
    }
  }

  /** Non-increasing date order: every record is at least as new as every later one. */
  ghost predicate NewestFirst(rs: seq<MedicalRecord>) {
    forall i, j :: 0 <= i < j < |rs| ==> DateLe(rs[j].date, rs[i].date)
  }

  ghost predicate NeighboursNewestFirst(rs: seq<MedicalRecord>) {
    forall k :: 0 < k < |rs| ==> DateLe(rs[k].date, rs[k - 1].date)
  }

  lemma {:induction false} NeighboursChain(rs: seq<MedicalRecord>, i: int, j: int)
    requires NeighboursNewestFirst(rs) && 0 <= i <= j < |rs|
    ensures DateLe(rs[j].date, rs[i].date)
    decreases j - i
  {
    if i == j {
      DateLeReflexive(rs[i].date);
    } else {
      NeighboursChain(rs, i, j - 1);
      DateLeTransitive(rs[j].date, rs[j - 1].date, rs[i].date);
    }
  }

  lemma NeighboursGiveNewestFirst(rs: seq<MedicalRecord>)
    requires NeighboursNewestFirst(rs)
    ensures NewestFirst(rs)
  {
    forall i, j | 0 <= i < j < |rs| ensures DateLe(rs[j].date, rs[i].date) {
      NeighboursChain(rs, i, j);
    }
  }

  /** Neighbours in `a[..n]` are in newest-first order. */
  ghost predicate PrefixNewestFirst(a: array<MedicalRecord>, n: int)
    reads a
  {
    forall k :: 0 < k < n && k < a.Length ==> DateLe(a[k].date, a[k - 1].date)
  }

  method Swap(a: array<MedicalRecord>, j: int)
    requires 0 < j < a.Length
    modifies a
    ensures a[j - 1] == old(a[j]) && a[j] == old(a[j - 1])
    ensures forall k :: 0 <= k < a.Length && k != j - 1 && k != j ==> a[k] == old(a[k])
    ensures multiset(a[..]) == multiset(old(a[..]))
  {
    a[j - 1], a[j] := a[j], a[j - 1];
  }

  /** One insertion step: move `a[i]` left past every strictly older neighbour. */
  method InsertAt(a: array<MedicalRecord>, i: int)
    requires 0 < i < a.Length && PrefixNewestFirst(a, i)
    modifies a
    ensures PrefixNewestFirst(a, i + 1)
    ensures multiset(a[..]) == multiset(old(a[..]))
  {
    var j := i;
    while j > 0 && !DateLe(a[j].date, a[j - 1].date)
      invariant 0 <= j <= i
      invariant forall k :: 0 < k <= i && k != j ==> DateLe(a[k].date, a[k - 1].date)
      invariant 0 < j < i ==> DateLe(a[j + 1].date, a[j - 1].date)
      invariant multiset(a[..]) == multiset(old(a[..]))
    {
      DateLeTotal(a[j].date, a[j - 1].date);
      Swap(a, j);
      j := j - 1;
    }
  }

  /**
   * `records.sort((a, b) => date(b) - date(a))`, in place: an insertion sort
   * that moves a record in front of its neighbour only when strictly newer.
   */
  method SortNewestFirst(a: array<MedicalRecord>)
    modifies a
    ensures NewestFirst(a[..])
    ensures multiset(a[..]) == multiset(old(a[..]))
  {
    var i := 1;
    while i < a.Length
      invariant 1 <= i
      invariant PrefixNewestFirst(a, i)
      invariant multiset(a[..]) == multiset(old(a[..]))
    {
      InsertAt(a, i);
      i := i + 1;
    }
    NeighboursGiveNewestFirst(a[..]);
  }

  /** The timeline: the patient's records, newest first. */
  method Timeline(records: seq<MedicalRecord>) returns (sorted: seq<MedicalRecord>)
    ensures NewestFirst(sorted)
    ensures multiset(sorted) == multiset(records)
  {
    var a := new MedicalRecord[|records|](k requires 0 <= k < |records| => records[k]);
    assert a[..] == records;
    SortNewestFirst(a);
    sorted := a[..];
  }

  class DoctorDashboard {
    var user: Option<User>
    var patientIdInput: string
    var isSearching: bool
    var currentPatient: Option<PatientData>
    var recentPatients: seq<PatientData>
    /** The input text the search timer's closure captured. */
    var pending: Option<string>

    ghost predicate Valid()
      reads this
    {
      isSearching <==> pending.Some?
    }

    constructor ()
      ensures Valid() && user == None && patientIdInput == "" && !isSearching
      ensures currentPatient == None && recentPatients == []
    {
      user := None;
      patientIdInput := "";
      isSearching := false;
      currentPatient := None;
      recentPatients := [];
      pending := None;
    }

    /**
     * The mount effect: a non-doctor session navigates home and returns at once;
     * with no session it navigates home but still loads the recent list.
     */
    method Mount(store: LocalStorage) returns (navigateTo: Option<string>)
      modifies this`user, this`recentPatients
      ensures navigateTo == DoctorGuard(store.items)
      ensures user == if navigateTo.None? then GetUser(store.items) else old(user)
      ensures recentPatients ==
        if GetUser(store.items).Some? && navigateTo.Some? then old(recentPatients)
        else GetRecentPatients(store.items).GetOr(old(recentPatients))
    {
      navigateTo := None;
      var saved := GetUser(store.items);
      if saved.Some? {
        if saved.value.role != DOCTOR_ROLE {
          navigateTo := Some(HOME_ROUTE);
          return;
        }
        user := saved;
      } else {
        navigateTo := Some(HOME_ROUTE);
      }
      var savedRecent := GetRecentPatients(store.items);
      if savedRecent.Some? {
        recentPatients := savedRecent.value;
      }
    }

    /** Typing into the patient-id input. */
    method HandleInputChange(value: string)
      modifies this`patientIdInput
      ensures patientIdInput == value
    {
      patientIdInput := value;
    }

    /** `handleSearchPatient`; the search button is disabled while searching. */
    method HandleSearchPatient() returns (rejected: bool)
      requires Valid() && !isSearching
      modifies this`isSearching, this`pending
      ensures Valid()
      ensures rejected <==> IsBlank(patientIdInput)
      ensures pending == if rejected then None else Some(patientIdInput)
    {
      TrimEmptyIffBlank(patientIdInput);
      if Trim(patientIdInput) == "" {
        rejected := true;
        return;
      }
      rejected := false;
      isSearching := true;
      pending := Some(patientIdInput);
    }

    /** The search timer fires: the lookup succeeds exactly for input starting with `PID-`. */
    method CompleteSearch(id: string, store: LocalStorage) returns (found: bool)
      requires Valid() && pending.Some?
      modifies this`currentPatient, this`recentPatients, this`isSearching, this`pending, store
      ensures Valid() && !isSearching
      ensures found <==> StartsWith(old(pending).value, PATIENT_ID_PREFIX)
      ensures !found ==> currentPatient == None && recentPatients == old(recentPatients)
      ensures !found ==> store.items == old(store.items)
      ensures found ==> currentPatient == Some(Lookup(id, old(pending).value, old(store.items)))
      ensures found && HasPatient(old(recentPatients), old(pending).value) ==>
        recentPatients == old(recentPatients) && store.items == old(store.items)
      ensures found && !HasPatient(old(recentPatients), old(pending).value) ==>
        && recentPatients == AddRecent(currentPatient.value, old(recentPatients))
        && store.items == old(store.items)[RECENT_PATIENTS_KEY := RecentPatientsItem(recentPatients)]
      ensures RecentValid(old(recentPatients)) ==> RecentValid(recentPatients)
    {
      var input := pending.value;
      found := StartsWith(input, PATIENT_ID_PREFIX);
      if found {
        var patient := Lookup(id, input, store.items);
        currentPatient := Some(patient);
        if RecentValid(recentPatients) {
          AddRecentKeepsValid(patient, recentPatients);
        }
        if !HasPatient(recentPatients, input) {
          recentPatients := AddRecent(patient, recentPatients);
          store.SetItem(RECENT_PATIENTS_KEY, RecentPatientsItem(recentPatients));
        }
      } else {
        currentPatient := None;
      }
      isSearching := false;
      pending := None;
    }

    /** `handleSelectRecentPatient`: show the cached snapshot without reading storage. */
    method HandleSelectRecentPatient(p: PatientData)
      modifies this`currentPatient, this`patientIdInput
      ensures currentPatient == Some(p) && patientIdInput == p.patientId
    {
      currentPatient := Some(p);
      patientIdInput := p.patientId;
    }
  }
}
