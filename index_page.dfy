/** The landing page: session redirect, the feature carousel and the feature popup. */
module Landing {
  import opened Wrappers
  import opened Storage
  import PatientHome
  import Doctor

  /** Titles of the `features` carousel; only its length drives the tick. */
  const FEATURE_TITLES := ["Schedule Appointments", "Access Medical Records", "Connect with Doctors"]

  /** One carousel tick: `(prev + 1) % features.length`. */
  function NextFeature(active: int): (next: int)
    ensures 0 <= active < |FEATURE_TITLES| ==>
      next == if active + 1 == |FEATURE_TITLES| then 0 else active + 1
  {
    (active + 1) % |FEATURE_TITLES|
  }

  /** The active index stays in range and comes back to its start after three ticks. */
  lemma TickCycle(active: int)
    requires 0 <= active < |FEATURE_TITLES|
    ensures 0 <= NextFeature(active) < |FEATURE_TITLES|
    ensures NextFeature(NextFeature(NextFeature(active))) == active
  {
  }

  datatype HealthFeature = HealthFeature(id: int, title: string, description: string)

  const HEALTH_FEATURES := [
    HealthFeature(1, "BMI Calculator", "Instantly calculate your Body Mass Index to track your fitness journey."),
    HealthFeature(2, "Health Data Storage", "Securely store and access all your health records in one place."),
    HealthFeature(3, "Nutrition Planner", "Personalized diet recommendations for your health goals."),
    HealthFeature(4, "Health Explore Page", "Discover articles, advice, and wellness tips for a healthier life."),
    HealthFeature(5, "Streak Counter", "Stay motivated by tracking your healthy habits streaks."),
    HealthFeature(6, "Graphical Analysis", "Visualize your health progress through beautiful and informative charts.")
  ]

  /** `fs.find(f => f.id === selected)`: the first entry with that id. */
  function Find(fs: seq<HealthFeature>, selected: Option<int>): (r: Option<HealthFeature>)
    ensures r.Some? ==> selected.Some? && r.value in fs && r.value.id == selected.value
    ensures r.None? <==> selected.None? || forall k :: 0 <= k < |fs| ==> fs[k].id != selected.value
    ensures r.Some? ==> exists k :: 0 <= k < |fs| && fs[k] == r.value && forall m :: 0 <= m < k ==> fs[m].id != r.value.id
  {
    if selected.None? || fs == [] then None
    else if fs[0].id == selected.value then Some(fs[0])
    else
      var r := Find(fs[1..], selected);
      assert forall k :: 1 <= k < |fs| ==> fs[k] == fs[1..][k - 1];
      r
  }

  /** `currentFeature`: an entry is shown exactly for the ids 1 to 6, and it has the selected id. */
  function CurrentFeature(selected: Option<int>): (shown: Option<HealthFeature>)
    ensures shown.Some? <==> selected.Some? && 1 <= selected.value <= |HEALTH_FEATURES|
    ensures shown.Some? ==> shown.value in HEALTH_FEATURES && shown.value.id == selected.value
  {
    FeatureIdsAreIndices();
    FindByPosition(HEALTH_FEATURES, selected);
    Find(HEALTH_FEATURES, selected)
  }

  /** In a list whose ids count up from 1, the lookup of an id is the entry at that position. */
  lemma FindByPosition(fs: seq<HealthFeature>, selected: Option<int>)
    requires forall k :: 0 <= k < |fs| ==> fs[k].id == k + 1
    ensures Find(fs, selected).Some? <==> selected.Some? && 1 <= selected.value <= |fs|
    ensures Find(fs, selected).Some? ==> Find(fs, selected).value == fs[selected.value - 1]
  {
    if selected.Some? && 1 <= selected.value <= |fs| {
      assert fs[selected.value - 1].id == selected.value;
    }
  }

  /** The popup entries carry the ids 1 to 6 in order. */
  lemma FeatureIdsAreIndices()
    ensures forall k :: 0 <= k < |HEALTH_FEATURES| ==> HEALTH_FEATURES[k].id == k + 1
  {
  }

  /** A popup opens exactly for the ids 1 to 6, showing the one entry that carries that id. */
  lemma CurrentFeatureIsUnique(selected: Option<int>)
    ensures CurrentFeature(selected).Some? <==> selected.Some? && 1 <= selected.value <= |HEALTH_FEATURES|
    ensures CurrentFeature(selected).Some? ==> CurrentFeature(selected).value == HEALTH_FEATURES[selected.value - 1]
    ensures CurrentFeature(selected).Some? ==>
      forall k :: 0 <= k < |HEALTH_FEATURES| && HEALTH_FEATURES[k].id == selected.value ==> k == selected.value - 1
  {
    FeatureIdsAreIndices();
  }

  /** The mount effect's redirect: by role, and nowhere for no session or another role. */
  function RedirectTarget(items: Items): (target: Option<string>)
    ensures target == Some(PATIENT_DASHBOARD_ROUTE) <==>
      GetUser(items).Some? && GetUser(items).value.role == PATIENT_ROLE
    ensures target == Some(DOCTOR_DASHBOARD_ROUTE) <==>
      GetUser(items).Some? && GetUser(items).value.role == DOCTOR_ROLE
    ensures target.None? <==>
      GetUser(items).None? || GetUser(items).value.role !in {PATIENT_ROLE, DOCTOR_ROLE}
  {
    match GetUser(items)
    case None => None
    case Some(u) =>
      if u.role == PATIENT_ROLE then Some(PATIENT_DASHBOARD_ROUTE)
      else if u.role == DOCTOR_ROLE then Some(DOCTOR_DASHBOARD_ROUTE)
      else None
  }

  /** A redirect from the landing page is never bounced back by the dashboard it targets. */
  lemma RedirectAgreesWithGuards(items: Items)
    ensures RedirectTarget(items) == Some(PATIENT_DASHBOARD_ROUTE) ==> PatientHome.PatientGuard(items).None?
    ensures RedirectTarget(items) == Some(DOCTOR_DASHBOARD_ROUTE) ==> Doctor.DoctorGuard(items).None?
  {
  }

  class IndexPage {
    var activeFeature: int
    var selectedFeature: Option<int>

    ghost predicate Valid()
      reads this
    {
      0 <= activeFeature < |FEATURE_TITLES|
    }

    constructor ()
      ensures Valid() && activeFeature == 0 && selectedFeature == None
    {
      activeFeature := 0;
      selectedFeature := None;
    }

    /** The three-second interval callback. */
    method Tick()
      requires Valid()
      modifies this`activeFeature
      ensures Valid() && activeFeature == NextFeature(old(activeFeature))
    {
      TickCycle(activeFeature);
      activeFeature := NextFeature(activeFeature);
    }

    method OpenFeaturePopup(featureId: int)
      modifies this`selectedFeature
      ensures selectedFeature == Some(featureId)
    {
      selectedFeature := Some(featureId);
    }

    method CloseFeaturePopup()
      modifies this`selectedFeature
      ensures selectedFeature == None && CurrentFeature(selectedFeature) == None
    {
      selectedFeature := None;
    }
  }
}
