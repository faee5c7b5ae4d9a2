# Verolix front-end logic in Dafny

Verolix is a demo health-records web front-end. Patients log in or register.
They upload medical records into the browser's `localStorage`, search them and
edit a profile. Doctors look patients up by a `PID-` id: a lookup builds a
snapshot of the stored records and profile. The cache holds the first snapshot
of each of the five most recently added patients, newest first; looking up a
cached patient again neither refreshes its snapshot nor moves it. A landing
page redirects a signed-in visitor to the dashboard for their role. The
landing page also runs a feature carousel and a feature popup. A navigation
bar shows links that depend on the role and offers logout. A small utility
produces per-letter animation markup.

This project models the behaviour of those components:

- the data they hold is Dafny datatypes;
- each component's state is a Dafny class whose methods are the event handlers;
- the browser storage is a `LocalStorage` class over a map from key to typed item;
- each delayed timer callback is a separate completion method, and the values
  its closure captured are stored in a `pending` field.

One module per component:

| module | component |
|---|---|
| `Wrappers`, `Text`, `Email`, `Storage` | shared: option type, JavaScript string helpers, the e-mail pattern, storage keys, routes and records |
| `Auth` | login and registration form |
| `ContactPage` | contact form |
| `Upload` | medical-record upload form |
| `PatientHome` | patient dashboard |
| `Records` | "My Records" search page |
| `Profiles` | patient profile form |
| `Doctor` | doctor dashboard |
| `Nav` | navigation bar |
| `Landing` | landing page |
| `TextAnimator` | animation markup helpers |

Random values are parameters of the completion methods:

- `crypto.randomUUID()` is an `id: string`;
- `Math.floor(10000 + Math.random() * 90000)` is an integer `n` with `10000 <= n <= 99999`.

The e-mail regular expression `^[^\s@]+@[^\s@]+\.[^\s@]+$` has two forms:

- `Email.MatchesEmailPattern` is an existential reading of the pattern;
- `Email.IsValidEmail` is an executable check.

They are proved equivalent. `\s` is the full ECMAScript white-space and
line-terminator set.

## Model

| member | source | states |
|---|---|---|
| `Email.EmailCheckMatchesPattern` | src/components/auth/AuthForm.tsx:39-40 | The executable check accepts a string exactly when the pattern matches it: one '@', no white space, a non-empty local part, and a '.' in the domain that is neither its first nor its last character. |
| `Text.TrimEmptyIffBlank` | src/components/doctor/DoctorDashboard.tsx:86 | `trim()` yields "" exactly when every character is JavaScript white space. |
| `Text.ContainsIffOccurs` | src/components/patient/MyRecords.tsx:44-47 | `includes` holds exactly when the substring occurs at some position. |
| `Auth.CheckLogin` | src/components/auth/AuthForm.tsx:32-51 | Returns the first failure in order: an empty email or password, then a pattern mismatch, then a password shorter than 6. Each error holds exactly under its condition. No error exactly when the email matches and the password has at least 6 characters. |
| `Auth.LoginRoute` | src/components/auth/AuthForm.tsx:73 | A successful login goes to the patient dashboard exactly for the patient tab, otherwise to the doctor dashboard. |
| `Auth.PendingRoute` | src/components/auth/AuthForm.tsx:73-135 | A completed submit goes to the patient dashboard exactly for a registration or a patient login, otherwise to the doctor dashboard. |
| `Auth.CheckRegister` | src/components/auth/AuthForm.tsx:87-113 | Returns the first failure in order: a missing field, then a name shorter than 2, then the email pattern, then the password length. Each error holds exactly under its condition. |
| `Auth.DecimalRoundTrip` | src/components/auth/AuthForm.tsx:63 | Reading back the decimal text of a number gives the number. |
| `Auth.DecimalLength` | src/components/auth/AuthForm.tsx:63 | A number in [10^k, 10^(k+1)) prints as k+1 digits with no leading zero. |
| `Auth.PatientIdFor` | src/components/auth/AuthForm.tsx:63 | The id is `PID-` plus exactly five digits, and they denote the drawn number in [10000, 99999]. |
| `Auth.EmailName` | src/components/auth/AuthForm.tsx:61 | The name is a prefix of the email that has no '@' and stops at the first '@' when there is one. |
| `Auth.LoginUser` | src/components/auth/AuthForm.tsx:58-64 | The fabricated user keeps the id and email, its name is the part of the email before the '@', and its role is the tab's role. A patient id is present exactly for the patient tab and has the generated `PID-` format. |
| `Auth.RegisteredUser` | src/components/auth/AuthForm.tsx:120-129 | A registered user always has role "patient", the entered name and email, and a generated `PID-` id. |
| `Auth.AuthForm.constructor` | src/components/auth/AuthForm.tsx:20 | The form starts not loading. |
| `Auth.AuthForm.HandleLogin` | src/components/auth/AuthForm.tsx:23-54 | The error returned is `CheckLogin`'s. A timer is scheduled, with email and role captured, exactly when there is no error. A failure leaves the form idle and does not touch storage. |
| `Auth.AuthForm.HandleRegister` | src/components/auth/AuthForm.tsx:77-116 | The error returned is `CheckRegister`'s. A timer is scheduled exactly when there is no error. |
| `Auth.AuthForm.CompleteSubmit` | src/components/auth/AuthForm.tsx:54-136 | The timer stores the fabricated user under `verolix-user` and changes no other key. It navigates to the dashboard for the role, which is always the patient dashboard after registration. |
| `ContactPage.ContactFields.Set` | src/pages/Contact.tsx:27-30 | The spread update sets the named field and leaves the other two unchanged. |
| `ContactPage.Validate` | src/pages/Contact.tsx:45-49 | Gives the exact error text per field: "Name is required" and "Message is required" exactly for empty fields, with no trimming. The email gets "Email is required" when empty, else "Please enter a valid email" exactly when the pattern fails. |
| `ContactPage.AcceptedIff` | src/pages/Contact.tsx:54 | The form is accepted exactly when the name and message are non-empty and the email matches the pattern. |
| `ContactPage.ContactForm.constructor` | src/pages/Contact.tsx:6-18 | All fields and errors start empty, and `submitted` starts false. |
| `ContactPage.ContactForm.HandleChange` | src/pages/Contact.tsx:25-39 | Sets only the edited field and clears only that field's error. The other errors and `submitted` are unchanged. |
| `ContactPage.ContactForm.HandleSubmit` | src/pages/Contact.tsx:41-71 | The errors are replaced wholesale by `Validate` of the submitted data. On acceptance `submitted` is true and the fields reset. On failure the data and `submitted` are unchanged. |
| `ContactPage.ContactForm.ExpireSubmitted` | src/pages/Contact.tsx:67-69 | The five-second timer clears `submitted` and changes nothing else. |
| `Upload.OptionalText` | src/components/patient/MedicalRecordUpload.tsx:72-73 | The text-or-undefined fallback is absent exactly for the empty string and is otherwise the string itself. |
| `Upload.OptionalTextRoundTrip` | src/components/patient/MedicalRecordUpload.tsx:72-73 | Reading an optional field back with an empty-string fallback gives the entered text. |
| `Upload.BuildRecord` | src/components/patient/MedicalRecordUpload.tsx:66-74 | The new record carries the selected type, title, date and file name. Doctor and details are each absent exactly when empty, and equal to the input otherwise. |
| `Upload.RecordUploadForm.constructor` | src/components/patient/MedicalRecordUpload.tsx:39-45 | The type starts as prescription, every text field is "", there is no file, and the form is not submitting. |
| `Upload.RecordUploadForm.HandleFileChange` | src/components/patient/MedicalRecordUpload.tsx:47-51 | The first chosen file is taken. An empty selection keeps the old file. |
| `Upload.RecordUploadForm.HandleSubmit` | src/components/patient/MedicalRecordUpload.tsx:53-62 | Rejected exactly when the title or date is empty or there is no file. A rejection returns to not submitting with nothing scheduled. Otherwise the draft is captured for the timer. |
| `Upload.RecordUploadForm.CompleteUpload` | src/components/patient/MedicalRecordUpload.tsx:65-86 | Hands out exactly the record built from the captured draft. Title, doctor, date and details are reset to "", the file is removed and submitting ends. The record type is kept. |
| `PatientHome.SampleRecords` | src/components/patient/PatientDashboard.tsx:63-91 | There are three sample records, with ids "1", "2" and "3" in that order. |
| `PatientHome.PatientGuard` | src/components/patient/PatientDashboard.tsx:49-55 | Navigates home exactly when there is no session. No role is checked. |
| `PatientHome.InitialRecords` | src/components/patient/PatientDashboard.tsx:58-92 | The dashboard shows the stored records when there are any, otherwise the three samples; it is empty only when an empty list is stored. |
| `PatientHome.SeededItems` | src/components/patient/PatientDashboard.tsx:58-94 | Storage is unchanged when records exist. Otherwise exactly the records key is set to the samples. |
| `PatientHome.RemountIsStable` | src/components/patient/PatientDashboard.tsx:58-93 | After seeding, the stored records are the ones shown. A second mount writes nothing and shows the same records. The session is untouched. |
| `PatientHome.PatientDashboard.constructor` | src/components/patient/PatientDashboard.tsx:43-44 | There is no user and no records before mounting. |
| `PatientHome.PatientDashboard.Mount` | src/components/patient/PatientDashboard.tsx:47-95 | The route is `PatientGuard`'s and the user is the session's. The records shown are the stored ones, or the samples, which are then persisted. Memory and storage agree afterwards. |
| `PatientHome.PatientDashboard.HandleAddRecord` | src/components/patient/PatientDashboard.tsx:97-101 | The records become the old ones plus the new record: one longer, with the old list as a prefix. The whole array is persisted, so storage and memory agree. |
| `Records.FilterRecords` | src/components/patient/MyRecords.tsx:42-48 | The result holds only matching records of the input, and every matching record of the input appears in it. |
| `Records.RecordMatches` | src/components/patient/MyRecords.tsx:43-47 | An empty term matches every record; a record with no doctor, details or file name matches exactly when its lower-cased title contains the lower-cased term. |
| `Records.MatchIgnoresTermCase` | src/components/patient/MyRecords.tsx:43-47 | Matching does not depend on the case of the term: lower-casing the term first gives the same answer. |
| `Records.Search` | src/components/patient/MyRecords.tsx:39-49 | A term blank after trimming gives all records unchanged; otherwise a record is in the result exactly when it is in the input and matches. The result is never longer than the input. |
| `Records.FilterIsOrderedSelection` | src/components/patient/MyRecords.tsx:42-48 | The result is the input at strictly increasing positions. A position is selected exactly when its record's lower-cased title, doctor, details or file name contains the lower-cased untrimmed term; absent fields never match. |
| `Records.FilterIdempotent` | src/components/patient/MyRecords.tsx:42-49 | Filtering the filtered list with the same term changes nothing. |
| `Records.SearchBlankIsIdentity` | src/components/patient/MyRecords.tsx:39-40 | A term that is empty after trimming shows every record unchanged. |
| `Records.SearchIdempotent` | src/components/patient/MyRecords.tsx:38-51 | Searching the search result again with the same term gives the same list. |
| `Records.MyRecordsPage.constructor` | src/components/patient/MyRecords.tsx:24-26 | The page starts with no records, an empty term and an empty filtered list. |
| `Records.MyRecordsPage.Load` | src/components/patient/MyRecords.tsx:28-36 | The stored list replaces `records` when present. The filtered list is then the search result, which equals `records` when the term is blank. |
| `Records.MyRecordsPage.SetSearchTerm` | src/components/patient/MyRecords.tsx:38-51 | The term is set, `records` is unchanged, and the filtered list is the new search result. |
| `Records.MyRecordsPage.RefreshFilter` | src/components/patient/MyRecords.tsx:38-51 | The filtered list becomes the search result. Only the filtered list is written. |
| `Profiles.Set` | src/components/patient/PatientProfile.tsx:62-67 | The spread update sets the named field and leaves the other eight unchanged. |
| `Profiles.DefaultProfile` | src/components/patient/PatientProfile.tsx:48-58 | Full name and email come from the user, and the other seven fields are "". |
| `Profiles.LoadProfile` | src/components/patient/PatientProfile.tsx:45-58 | The saved profile is used as it is; without one, name and e-mail come from the session user and the other seven fields are empty. |
| `Profiles.SaveThenLoad` | src/components/patient/PatientProfile.tsx:45-47 | After the profile key is written, the next load returns the written profile, whoever the user is. |
| `Profiles.EditsKeepEmail` | src/components/patient/PatientProfile.tsx:104-111 | No sequence of edits through the enabled inputs changes the email. |
| `Profiles.PatientProfileForm.constructor` | src/components/patient/PatientProfile.tsx:45-60 | The initial profile is the saved one, or the defaults derived from the user. |
| `Profiles.PatientProfileForm.HandleChange` | src/components/patient/PatientProfile.tsx:62-67 | Only the edited field changes, and the email is kept. |
| `Profiles.PatientProfileForm.HandleSubmit` | src/components/patient/PatientProfile.tsx:69-73 | Submitting starts and the current profile is captured for the timer. |
| `Profiles.PatientProfileForm.CompleteSave` | src/components/patient/PatientProfile.tsx:74-78 | The captured profile is written under `verolix-profile` and submitting ends. This pairs with `SaveThenLoad`. |
| `Doctor.DoctorGuard` | src/components/doctor/DoctorDashboard.tsx:64-76 | Stays exactly when the session role is "doctor". Otherwise it navigates home. |
| `Doctor.SummaryOf` | src/components/doctor/DoctorDashboard.tsx:101-115 | The summary holds the saved profile's four fields, or all "" with no saved profile. |
| `Doctor.Lookup` | src/components/doctor/DoctorDashboard.tsx:104-116 | The snapshot's patient id is the raw input, its name is "Patient " plus the input after `PID-`, its records are the stored list or [], and its profile is `SummaryOf`. |
| `Doctor.HasPatient` | src/components/doctor/DoctorDashboard.tsx:121 | No id is in the empty list; a list holds an id exactly when its first entry carries it or the rest holds it. |
| `Doctor.AddRecent` | src/components/doctor/DoctorDashboard.tsx:121-126 | An id already cached leaves the list as it is, not reordered. Otherwise the new list starts with the patient, followed by the old list cut to a total length of min(old+1, 5). |
| `Doctor.AddRecentKeepsValid` | src/components/doctor/DoctorDashboard.tsx:121-126 | Starting from a list of at most 5 entries with distinct patient ids, the update keeps both properties and caches the id. |
| `Doctor.AddRecentIdempotent` | src/components/doctor/DoctorDashboard.tsx:121-122 | Looking the same patient up twice caches them once. |
| `Doctor.DateLeReflexive` | src/components/doctor/DoctorDashboard.tsx:365 | The date order is reflexive. |
| `Doctor.DateLeTotal` | src/components/doctor/DoctorDashboard.tsx:365 | The date order is total. |
| `Doctor.DateLeTransitive` | src/components/doctor/DoctorDashboard.tsx:365 | The date order is transitive. |
| `Doctor.SortNewestFirst` | src/components/doctor/DoctorDashboard.tsx:364-365 | The in-place sort leaves the array in non-increasing date order and as a permutation of its old contents. |
| `Doctor.Timeline` | src/components/doctor/DoctorDashboard.tsx:364-366 | The timeline is a permutation of the records in non-increasing date order. |
| `Doctor.DoctorDashboard.constructor` | src/components/doctor/DoctorDashboard.tsx:55-59 | Nothing is loaded at first: no user, empty input, no patient and no recent list. |
| `Doctor.DoctorDashboard.Mount` | src/components/doctor/DoctorDashboard.tsx:62-83 | The route is `DoctorGuard`'s. A doctor session is loaded. A non-doctor session returns before the recent list is read. With no session the stored recent list is still loaded. |
| `Doctor.DoctorDashboard.HandleInputChange` | src/components/doctor/DoctorDashboard.tsx:172 | The input field holds the typed text. |
| `Doctor.DoctorDashboard.HandleSearchPatient` | src/components/doctor/DoctorDashboard.tsx:85-93 | Rejected exactly when the input is blank after trimming, with nothing scheduled. Otherwise the raw input is captured and searching starts. |
| `Doctor.DoctorDashboard.CompleteSearch` | src/components/doctor/DoctorDashboard.tsx:94-135 | Found exactly when the captured input starts with `PID-`. Otherwise the patient is cleared and the cache and storage are unchanged. When found, the patient is the `Lookup` snapshot. An uncached id goes through `AddRecent` and the list is persisted; a cached id changes neither the list nor storage. The cache invariant is preserved. |
| `Doctor.DoctorDashboard.HandleSelectRecentPatient` | src/components/doctor/DoctorDashboard.tsx:138-141 | The cached snapshot becomes the current patient and the input becomes its id. The store is not read. |
| `Nav.DashboardLink` | src/components/layout/Navbar.tsx:133 | The dashboard link is the patient dashboard exactly for role "patient", and the doctor dashboard otherwise. |
| `Nav.ShowsMyRecords` | src/components/layout/Navbar.tsx:140 | My Records is shown exactly when the dashboard link leads to the patient dashboard, and whenever a patient id is shown. |
| `Nav.ShownPatientId` | src/components/layout/Navbar.tsx:157 | An id is shown exactly when the role is "patient" and the patient id is present and non-empty, and then it is that id. |
| `Nav.LoginAgreesWithNavbar` | src/components/layout/Navbar.tsx:133-160 | After a login, the dashboard link equals the route the login navigated to. The My Records link and the patient id appear exactly for the patient tab. |
| `Nav.RegistrationAgreesWithNavbar` | src/components/layout/Navbar.tsx:133-160 | After registration the link is the patient dashboard, My Records is shown, and so is the new patient id. |
| `Nav.LogoutEndsSession` | src/components/layout/Navbar.tsx:44-48 | With the session key removed, both dashboards send the visitor home and the landing page does not redirect. The records, profile and recent-patient items are untouched. |
| `Nav.Navbar.constructor` | src/components/layout/Navbar.tsx:23-29 | The session user is read on mount, and the menu starts closed. |
| `Nav.Navbar.HandleLogout` | src/components/layout/Navbar.tsx:44-48 | Only `verolix-user` is removed from storage. The user becomes null and the route is "/". |
| `Nav.Navbar.ToggleMenu` | src/components/layout/Navbar.tsx:50-52 | Negates `isMenuOpen`. |
| `Nav.Navbar.CloseMenu` | src/components/layout/Navbar.tsx:54-56 | Closes the menu. |
| `Nav.Navbar.HandleMobileLogout` | src/components/layout/Navbar.tsx:287-290 | Logs out as `HandleLogout` does, and the menu ends closed. |
| `Landing.TickCycle` | src/pages/Index.tsx:86-91 | A tick keeps the active index in [0, 3), and three ticks return to the start. |
| `Landing.NextFeature` | src/pages/Index.tsx:88 | From an index in range, a tick moves to the next index and wraps from the last back to 0. |
| `Landing.Find` | src/pages/Index.tsx:103 | Returns the first entry whose id equals the selection. It is absent exactly when nothing is selected or no id matches. |
| `Landing.CurrentFeature` | src/pages/Index.tsx:103 | An entry is shown exactly for a selected id in 1..6, and the entry shown is in the list and carries that id. |
| `Landing.FeatureIdsAreIndices` | src/pages/Index.tsx:30-67 | The six popup entries carry ids 1 to 6 in order. |
| `Landing.CurrentFeatureIsUnique` | src/pages/Index.tsx:103 | A feature is shown exactly for a selected id in 1..6. It is the entry at position id-1, and no other position carries that id. |
| `Landing.RedirectTarget` | src/pages/Index.tsx:74-84 | Role "patient" goes to the patient dashboard and role "doctor" to the doctor dashboard. No session, or any other role, gives no navigation. |
| `Landing.RedirectAgreesWithGuards` | src/pages/Index.tsx:74-84 | A redirect from the landing page is never bounced back home by the dashboard it targets. |
| `Landing.IndexPage.constructor` | src/pages/Index.tsx:71-72 | The carousel starts at 0 with no popup. |
| `Landing.IndexPage.Tick` | src/pages/Index.tsx:86-91 | The interval callback sets the index to (index + 1) mod 3 and keeps it in range. |
| `Landing.IndexPage.OpenFeaturePopup` | src/pages/Index.tsx:94-96 | Selects the given id. |
| `Landing.IndexPage.CloseFeaturePopup` | src/pages/Index.tsx:98-100 | Clears the selection, so no feature is shown. |
| `TextAnimator.WrapAllAppend` | src/utils/textAnimator.tsx:88-95 | The plain mode distributes over concatenation. It is the per-character map of `&nbsp;` for ' ' and the character itself otherwise, each inside a letter span. |
| `TextAnimator.AnimateTextString` | src/utils/textAnimator.tsx:87-124 | With `preserveHtml` false the output is the plain per-letter markup. With it true, the scanning loop produces exactly the reference reading of tags `TagAware`. |
| `TextAnimator.NoOpenAppend` | src/utils/textAnimator.tsx:103-121 | Input without '<' renders independently of what follows it. |
| `TextAnimator.StrayCloseKept` | src/utils/textAnimator.tsx:109-113 | A '>' with no '<' anywhere before it is emitted as a bare '>', and the rendering of what follows starts afresh. |
| `TextAnimator.TagCopied` | src/utils/textAnimator.tsx:106-115 | A complete `<...>` run is copied verbatim in front of the rendering of the rest. |
| `TextAnimator.UnterminatedDropped` | src/utils/textAnimator.tsx:103-123 | A trailing, unterminated '<' and everything after it contribute nothing. |
| `TextAnimator.NoTagsSameOutput` | src/utils/textAnimator.tsx:87-121 | For input with neither '<' nor '>', both modes give the same output. |
| `TextAnimator.SpansFrom` | src/utils/textAnimator.tsx:27-31 | Gives one span per character, in order, keyed from the offset, with ' ' shown as U+00A0. |
| `TextAnimator.ProcessText` | src/utils/textAnimator.tsx:26-32 | Gives exactly one span per input character, keyed by its index, with ' ' mapped to U+00A0. |
| `TextAnimator.ProcessTextMatchesString` | src/utils/textAnimator.tsx:26-32 | For input without U+00A0, each span of `processText` renders the same letter markup as the plain mode of `animateTextString`, reading U+00A0 back as `&nbsp;`. |

## Left out

- JSX rendering, CSS classes, icons, toasts and `console.log` are left out. A toast is modelled, at most, as the error value that selects it; the toast texts are not modelled.
- Timer delays and cancellation are left out. Each `setTimeout` callback is an explicit completion method that the caller invokes.
- `setInterval` in the landing page is modelled as `IndexPage.Tick`; its unmounting clean-up is not.
- `crypto.randomUUID` and `Math.random` are parameters; randomness is not modelled.
- JSON encoding of storage is left out. Items are typed, and an item of another kind under a key reads as absent.
- `toLowerCase` folds ASCII letters only. Full Unicode case mapping is not modelled.
- Strings are sequences of characters. JavaScript counts UTF-16 code units in `.length` and `split('')`, which differs only outside the Basic Multilingual Plane.
- `Doctor.SortNewestFirst` orders by lexicographic comparison of the date strings instead of `new Date(...).getTime()`. That is the same order for the ISO `YYYY-MM-DD` dates the app stores; dates that fail to parse are not modelled.
- `Doctor.Timeline` sorts a copy. In the app, `.sort` reorders the current patient's records array in place; that array is shared with the cached snapshot, and this aliasing is not modelled.
- `TextAnimator.AnimateTextString` takes `preserveHtml` as a required argument. The source defaults it to true; no modelled caller relies on that default.
- The regular-expression span splitting of the `AnimateText` component (src/utils/textAnimator.tsx:35-72) is not modelled. `animateTextString` and `processText` are.
- Navbar scroll and visibility effects, `scrollToAuth`, `scrollToTop` and the mobile breakpoint are DOM geometry and are not modelled.
- `Profiles.PatientProfileForm.HandleChange` requires an editable field, because the email input is read-only and disabled.
- The inline `onChange` setters of the upload form, and its record-type select, are plain field assignments. They are not written as methods.
- `Upload.RecordUploadForm.CompleteUpload` returns the record instead of calling `onRecordAdded`. `PatientHome.PatientDashboard.HandleAddRecord` is that callback.
- The BMI calculator, the hero scroll reveal, the cursor hook, the footer, the about page and the routing table are not part of this model.
