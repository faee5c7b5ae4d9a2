/** The patient profile form: defaults from the session, single-field edits, save and load. */
module Profiles {
  import opened Wrappers
  import opened Storage

  datatype ProfileField =
    FullName | EmailField | Phone | DateOfBirth | Gender | Address | EmergencyContact | MedicalConditions | Allergies

  /** Every field but the e-mail has an enabled input; the e-mail input is read-only and disabled. */
  predicate Editable(f: ProfileField) {
    f != EmailField
  }

  function Get(p: Profile, f: ProfileField): string {
    match f
    case FullName => p.fullName
    case EmailField => p.email
    case Phone => p.phone
    case DateOfBirth => p.dateOfBirth
    case Gender => p.gender
    case Address => p.address
    case EmergencyContact => p.emergencyContact
    case MedicalConditions => p.medicalConditions
    case Allergies => p.allergies
  }

  /** `{ ...prev, [name]: value }`. */
  function Set(p: Profile, f: ProfileField, v: string): (q: Profile)
    ensures Get(q, f) == v
    ensures forall g :: g != f ==> Get(q, g) == Get(p, g)
  {
    match f
    case FullName => p.(fullName := v)
    case EmailField => p.(email := v)
    case Phone => p.(phone := v)
    case DateOfBirth => p.(dateOfBirth := v)
    case Gender => p.(gender := v)
    case Address => p.(address := v)
    case EmergencyContact => p.(emergencyContact := v)
    case MedicalConditions => p.(medicalConditions := v)
    case Allergies => p.(allergies := v)
  }

  /** The profile derived from the session user when none is saved. */
  function DefaultProfile(u: User): (p: Profile)
    ensures p.fullName == u.name && p.email == u.email
    ensures forall f :: f != FullName && f != EmailField ==> Get(p, f) == ""
  {
    Profile(u.name, u.email, "", "", "", "", "", "", "")
  }

  /** `initialProfile`: the saved profile as it is, or the defaults. */
  function LoadProfile(items: Items, u: User): (p: Profile)
    ensures GetProfile(items).Some? ==> p == GetProfile(items).value
    ensures GetProfile(items).None? ==>
      p.fullName == u.name && p.email == u.email &&
      forall f :: f != FullName && f != EmailField ==> Get(p, f) == ""
  {
    GetProfile(items).GetOr(DefaultProfile(u))
  }

  /** Saving then loading gives back the saved profile, whatever the session user. */
  lemma SaveThenLoad(items: Items, p: Profile, u: User)
    ensures LoadProfile(items[PROFILE_KEY := ProfileItem(p)], u) == p
  {
  }

  /** A run of edits through the form's inputs. */
  function ApplyEdits(p: Profile, edits: seq<(ProfileField, string)>): Profile
    decreases |edits|
  {
    if edits == [] then p else ApplyEdits(Set(p, edits[0].0, edits[0].1), edits[1..])
  }

  /** No run of edits through the enabled inputs changes the e-mail. */
  lemma {:induction false} EditsKeepEmail(p: Profile, edits: seq<(ProfileField, string)>)
    requires forall k :: 0 <= k < |edits| ==> Editable(edits[k].0)
    ensures ApplyEdits(p, edits).email == p.email
    decreases |edits|
  {
    if edits != [] {
      var q := Set(p, edits[0].0, edits[0].1);
      assert Get(q, EmailField) == Get(p, EmailField);
      EditsKeepEmail(q, edits[1..]);
    }
  }

  class PatientProfileForm {
    var profileData: Profile
    var isSubmitting: bool
    var pending: Option<Profile>

    ghost predicate Valid()
      reads this
    {
      isSubmitting <==> pending.Some?
    }

    /** The first render: read `verolix-profile` or derive the defaults. */
    constructor (user: User, store: LocalStorage)
      ensures Valid() && !isSubmitting
      ensures profileData == LoadProfile(store.items, user)
    {
      profileData := LoadProfile(store.items, user);
      isSubmitting := false;
      pending := None;
    }

    /** `handleChange`, fired only by an enabled input. */
    method HandleChange(f: ProfileField, value: string)
      requires Editable(f)
      modifies this`profileData
      ensures profileData == Set(old(profileData), f, value)
      ensures profileData.email == old(profileData).email
    {
      profileData := Set(profileData, f, value);
    }

    /** `handleSubmit`; the save button is disabled while submitting. */
    method HandleSubmit()
      requires Valid() && !isSubmitting
      modifies this`isSubmitting, this`pending
      ensures Valid() && pending == Some(profileData)
    {
      isSubmitting := true;
      pending := Some(profileData);
    }

    /** The one-second timer fires: overwrite the stored profile with the one captured at submit. */
    method CompleteSave(store: LocalStorage)
      requires Valid() && pending.Some?
      modifies this`isSubmitting, this`pending, store
      ensures Valid() && !isSubmitting
      ensures store.items == old(store.items)[PROFILE_KEY := ProfileItem(old(pending).value)]
    {
      store.SetItem(PROFILE_KEY, ProfileItem(pending.value));
      isSubmitting := false;
      pending := None;
    }
  }
}
