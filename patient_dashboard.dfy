/** The patient dashboard: session guard, seeding the record store, appending uploads. */
module PatientHome {
  import opened Wrappers
  import opened Storage

  /** The three sample records seeded when the store has none. */
  function SampleRecords(): (r: seq<MedicalRecord>)
    ensures |r| == 3 && r[0].id == "1" && r[1].id == "2" && r[2].id == "3"
  {
    [ MedicalRecord("1", Prescription, "Amoxicillin Prescription", Some("amoxicillin_prescription.pdf"),
        "2023-04-15", Some("Dr. Sarah Johnson"), Some("500mg, three times daily for 7 days")),
      MedicalRecord("2", LabResult, "Blood Test Results", Some("blood_test_apr2023.pdf"),
        "2023-04-10", Some("Dr. David Chen"), Some("Complete blood count and lipid panel")),
      MedicalRecord("3", DoctorNote, "Annual Checkup Notes", Some("checkup_notes.pdf"),
        "2023-03-22", Some("Dr. Sarah Johnson"), Some("General examination, follow-up in 6 months")) ]
  }

  /** Where the mount effect navigates: home without a session; no role is checked. */
  function PatientGuard(items: Items): (target: Option<string>)
    ensures target.Some? <==> GetUser(items).None?
    ensures target.Some? ==> target.value == HOME_ROUTE
  {
    if GetUser(items).Some? then None else Some(HOME_ROUTE)
  }

  /** The records the dashboard shows after mounting. */
  function InitialRecords(items: Items): (rs: seq<MedicalRecord>)
    ensures GetRecords(items).Some? ==> rs == GetRecords(items).value
    ensures GetRecords(items).None? ==> rs == SampleRecords()
    ensures rs == [] ==> GetRecords(items) == Some([])
  {
    GetRecords(items).GetOr(SampleRecords())
  }

  /** The storage after mounting: the samples are written only when the key is absent. */
  function SeededItems(items: Items): (r: Items)
    ensures GetRecords(items).Some? ==> r == items
    ensures GetRecords(items).None? ==> r == items[RECORDS_KEY := RecordsItem(SampleRecords())]
  {
    if GetRecords(items).Some? then items else items[RECORDS_KEY := RecordsItem(SampleRecords())]
  }

  /** Mounting again finds the records the first mount stored and writes nothing. */
  lemma RemountIsStable(items: Items)
    ensures GetRecords(SeededItems(items)) == Some(InitialRecords(items))
    ensures SeededItems(SeededItems(items)) == SeededItems(items)
    ensures InitialRecords(SeededItems(items)) == InitialRecords(items)
    ensures GetUser(SeededItems(items)) == GetUser(items)
  {
  }

  class PatientDashboard {
    var user: Option<User>
    var records: seq<MedicalRecord>

    /** The in-memory records are the stored ones. */
    ghost predicate InSync(store: LocalStorage)
      reads this, store
    {
      GetRecords(store.items) == Some(records)
    }

    constructor ()
      ensures user == None && records == []
    {
      user := None;
      records := [];
    }

    /** The mount effect. */
    method Mount(store: LocalStorage) returns (navigateTo: Option<string>)
      modifies this, store
      ensures navigateTo == PatientGuard(old(store.items))
      ensures user == if GetUser(old(store.items)).Some? then GetUser(old(store.items)) else old(user)
      ensures records == InitialRecords(old(store.items))
      ensures store.items == SeededItems(old(store.items))
      ensures InSync(store)
    {
      navigateTo := None;
      var saved := GetUser(store.items);
      if saved.Some? {
        user := saved;
      } else {
        navigateTo := Some(HOME_ROUTE);
      }
      var savedRecords := GetRecords(store.items);
      if savedRecords.Some? {
        records := savedRecords.value;
      } else {
        records := SampleRecords();
        store.SetItem(RECORDS_KEY, RecordsItem(records));
      }
    }

    /** `handleAddRecord`: append, then persist the whole array. */
    method HandleAddRecord(newRecord: MedicalRecord, store: LocalStorage)
      modifies this, store
      ensures records == old(records) + [newRecord]
      ensures |records| == |old(records)| + 1 && records[..|old(records)|] == old(records)
      ensures store.items == old(store.items)[RECORDS_KEY := RecordsItem(records)]
      ensures user == old(user) && InSync(store)
    {
      records := records + [newRecord];
      store.SetItem(RECORDS_KEY, RecordsItem(records));
    }
  }
}
