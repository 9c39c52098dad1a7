# Health portal core in Dafny

This project models the core of a digital health-record portal. Patients register and
receive a medical ID and a QR value. Doctors ask patients for time-limited access. Once a
patient approves, the doctor may add medical records and raise alerts. Administrators
triage the alerts.

The backend's request handlers work on six tables: users, patients, doctors,
access_requests, medical_records and alerts.

- Handlers that write become methods of one class, `Store.HealthStore`. Its fields are the
  six tables, held as sequences of rows, and their serial-id counters. `Valid()` says that
  ids stay distinct and below their counters, that emails and license numbers are unique,
  and that at most one request per (patient, doctor) pair is pending.
- Handlers that only read become functions over the table sequences. The modules are
  `AccessGrants`, `MedicalRecords`, `Alerts`, `DoctorStats` and `Identity`.
- An SQL `ORDER BY` fixes no order among ties. Each listing is therefore specified as
  sorted by its comparator and as a permutation (same multiset) of the rows its joins and
  filters select. The model computes one admissible order with a stable insertion sort,
  `Sorting.SortBy`.

Three frontend pieces are part of the core:

- the add-record dialog's file validator, title guard and file-picking state
  (`RecordDialog`);
- the document viewer's extension classifier (`DocumentViewer`);
- the translation tables and the language provider (`Language`).

Some things the handlers take from outside become parameters:

- the clock is `now`, in milliseconds since the epoch;
- the four random bytes of a medical ID are `random`;
- a bcrypt hash is the `passwordHash` argument, and bcrypt comparison is the `verify`
  function given to `Login`;
- whether the object store removed a file is `bucketRemoves`.

JavaScript's `x || null` is modelled faithfully. `HealthTypes.OrNull` turns `""` into null
and `HealthTypes.NonZero` turns `0` into null.

Two behaviours of the code are worth stating plainly:

- In `get_patient_details.ts` the live-grant predicate only sets the `has_access` flag.
  The full patient row is returned either way, and `AccessGrants.GetPatientDetails`
  returns it unconditionally.
- No backend handler checks a record's file type. Only the client validator
  (`RecordDialog.ValidateFile`) does, and it returns a message rather than an error code.

## Model

| member | source | states |
|---|---|---|
| HealthTypes.OrNull | backend/health/add_medical_record.ts:45-46 | `s \|\| null`: null exactly when the value is absent or empty, and otherwise the value itself |
| HealthTypes.NonZero | backend/health/add_medical_record.ts:46 | `n \|\| null`: null exactly when the number is absent or zero |
| HealthTypes.FullName | backend/health/list_alerts.ts:16-17 | `first \|\| ' ' \|\| last`: the first name, one space, then the last name |
| AccessGrants.IsLiveGrant | backend/health/get_patient_details.ts:29-37 | a row is a live grant iff it is approved and its expiry is null or strictly after now |
| AccessGrants.HasLiveGrant | backend/health/add_medical_record.ts:24-33 | true iff some request of the pair is approved and unexpired |
| AccessGrants.HasPendingRequest | backend/health/request_access.ts:37-46 | true iff some request of the pair is still pending |
| AccessGrants.NewRequest | backend/health/request_access.ts:49-52 | the inserted request has the given pair, status pending, no response, `expires_at = now + 604800000`; its reason is null when absent or empty and otherwise the given text |
| AccessGrants.Respond | backend/health/respond_access_request.ts:31-35 | the answered row is approved or denied, never pending, with `responded_at = now`; every other column is as before |
| AccessGrants.AppendPendingPreservesInvariant | backend/health/request_access.ts:37-52 | appending a pending request keeps "at most one pending request per pair" when no request for that pair is pending |
| AccessGrants.DuplicatePendingBreaksInvariant | backend/health/request_access.ts:37-46 | without the duplicate guard, a second pending request for a pair would break the invariant |
| AccessGrants.RespondPreservesInvariant | backend/health/respond_access_request.ts:26-35 | answering any row keeps the at-most-one-pending invariant |
| AccessGrants.ApprovedGrantLiveUntilExpiry | backend/health/get_patient_details.ts:33-34 | an approved request is live before its expiry and not live at or after it; a denied one is never live |
| AccessGrants.LivenessDecays | backend/health/get_patient_details.ts:34 | a grant live at a later time was live at every earlier time |
| AccessGrants.OnlyApprovedRowsGrant | backend/health/get_patient_details.ts:33 | a ledger with no approved row gives no live grant |
| AccessGrants.GetPatientDetails | backend/health/get_patient_details.ts:20-42 | an unknown patient fails NotFound; otherwise the patient row is returned, and `has_access` holds iff some request for the pair is a live grant |
| AccessGrants.GrantedPatients | backend/health/list_patient_records.ts:22-31 | the join without DISTINCT: a row appears once per live approved grant of the doctor whose patient exists, carrying the grant's `responded_at` and `expires_at`, so its multiplicity is the number of such grants; no other row appears |
| AccessGrants.ListPatientRecords | backend/health/list_patient_records.ts:22-33 | the listing is a permutation of the joined rows |
| AccessGrants.ListPatientRecordsCorrect | backend/health/list_patient_records.ts:22-33 | every listed patient holds a live grant to the doctor; rows are ordered by `responded_at` descending, nulls first; each live grant is listed |
| AccessGrants.NoDistinctOnPatients | backend/health/list_patient_records.ts:22-33 | a patient with two live grants from one doctor is listed twice |
| AccessGrants.GrantedLaterIsTotalPreorder | backend/health/list_patient_records.ts:32 | the `responded_at DESC` order is total and transitive |
| AccessGrants.WithNames | backend/health/list_access_requests.ts:17-24 | a request is joined iff its doctor and patient rows both exist; the names are first, space, last |
| AccessGrants.RequestsJoined | backend/health/list_access_requests.ts:22-25 | exactly the requests on the chosen side for the id, whose doctor and patient both exist, in any status |
| AccessGrants.RequestedLaterIsTotalPreorder | backend/health/list_access_requests.ts:26 | the `requested_at DESC` order is total and transitive |
| AccessGrants.ListAccessRequests | backend/health/list_access_requests.ts:17-27 | the patient-side listing is a permutation of the patient's joined requests |
| AccessGrants.ListAccessRequestsByDoctor | backend/health/list_access_requests_by_doctor.ts:17-27 | the doctor-side listing is a permutation of the doctor's joined requests |
| AccessGrants.RequestListingSound | backend/health/list_access_requests.ts:25 | every listed row is a request for the given id on the chosen side |
| AccessGrants.RequestListingComplete | backend/health/list_access_requests.ts:22-24 | a request for the id is listed iff its doctor and patient rows exist |
| AccessGrants.RequestListingSorted | backend/health/list_access_requests.ts:26 | the listing is ordered by `requested_at` descending |
| AccessGrants.ListAccessRequestsCorrect | backend/health/list_access_requests.ts:17-27 | the patient's requests, in every status, whose doctor and patient exist; newest first |
| AccessGrants.ListAccessRequestsByDoctorCorrect | backend/health/list_access_requests_by_doctor.ts:17-27 | the doctor's requests, in every status, whose doctor and patient exist; newest first |
| MedicalRecords.NewRecord | backend/health/add_medical_record.ts:24-49 | the inserted record keeps the title and type; it names the doctor only for a truthy `doctor_id`; empty or zero optional fields are null and present ones keep the given value; it has no summaries |
| MedicalRecords.NamesDoctor | backend/health/add_medical_record.ts:24 | the grant check runs iff `doctor_id` is truthy |
| MedicalRecords.WithSummaries | backend/health/update_record_summary.ts:28-34 | both summaries are overwritten, absent or empty becoming null; `summary_generated_at = now`; no other column changes |
| MedicalRecords.SummaryUpdateOverwrites | backend/health/update_record_summary.ts:28-34 | repeating an update equals doing it once at the later time; supplying only the doctor summary erases the patient summary |
| MedicalRecords.DeleteDenial | backend/health/delete_medical_record.ts:35-48 | deletion is allowed iff the role is patient and `patient_id = user_id`, or the role is doctor and `doctor_id = user_id`; otherwise PermissionDenied |
| MedicalRecords.DoctorCannotDeletePatientRecord | backend/health/delete_medical_record.ts:41-45 | a record with a null doctor can never be deleted by a doctor |
| MedicalRecords.AuthorName | backend/health/list_medical_records.ts:37-39 | the left join's `doctor_name`: the doctor's first, space, last name when the record has an existing doctor, null otherwise |
| MedicalRecords.PatientRecords | backend/health/list_medical_records.ts:34-40 | exactly the patient's records, each with its author name, every column passed through |
| MedicalRecords.ListMedicalRecords | backend/health/list_medical_records.ts:34-41 | the listing is a permutation of the patient's records |
| MedicalRecords.ListMedicalRecordsCorrect | backend/health/list_medical_records.ts:34-44 | every record of the patient and only those, doctorless records included, with `created_at` non-increasing |
| MedicalRecords.AddedRecordIsListed | backend/health/add_medical_record.ts:44-57 | a record just added appears, unchanged, in its patient's listing |
| Alerts.NewAlert | backend/health/create_alert.ts:34-38 | the inserted alert has the given doctor, patient, severity, title and description; status open (schema default); timestamps now |
| Alerts.WithStatus | backend/health/update_alert_status.ts:28-32 | status set as given, whatever it was; notes overwritten, absent or empty becoming null; `updated_at = now`; nothing else changes |
| Alerts.StatusUpdateIdempotent | backend/health/update_alert_status.ts:28-32 | repeating an update changes only `updated_at`; a resolved alert can be reopened |
| Alerts.SeverityRank | backend/health/list_alerts.ts:21-27 | critical ranks 1, high 2, medium 3, low 4, each iff |
| Alerts.SeverityRankInjective | backend/health/list_alerts.ts:21-27 | distinct severities have distinct ranks |
| Alerts.JoinedAlerts | backend/health/list_alerts.ts:13-20 | exactly the alerts whose doctor and patient rows exist, in any status, with both names |
| Alerts.Named | backend/health/list_alerts.ts:16-20 | an alert joins iff both its doctor and its patient exist; the names are first, space, last |
| Alerts.TriageBeforeIsTotalPreorder | backend/health/list_alerts.ts:21-28 | the severity-then-`created_at DESC` order is total and transitive |
| Alerts.ListAlerts | backend/health/list_alerts.ts:13-31 | the listing is a permutation of the joined alerts |
| Alerts.ListAlertsCorrect | backend/health/list_alerts.ts:13-31 | severity ranks never decrease along the listing; within one severity `created_at` never increases; an alert is listed iff its doctor and patient exist |
| Alerts.TriageOrder | backend/health/list_alerts.ts:21-28 | in a listing sorted by triage order, severity ranks never decrease and, within one severity, `created_at` never increases |
| Alerts.CriticalBeforeMediumAndLow | backend/health/list_alerts.ts:21-27 | a critical alert is listed before every medium or low one |
| Alerts.HighBeforeMediumAndLow | backend/health/list_alerts.ts:21-27 | a high alert is listed before every medium or low one |
| DoctorStats.RecordActivity | backend/health/get_doctor_stats.ts:54-67 | a record of this doctor whose patient exists becomes, and only such a record, a `record_added` entry with the title, `created_at` and the patient's full name |
| DoctorStats.AlertActivity | backend/health/get_doctor_stats.ts:72-85 | an alert of this doctor whose patient exists becomes, and only such an alert, an `alert_raised` entry with the title, `created_at` and the patient's full name |
| DoctorStats.GrantActivity | backend/health/get_doctor_stats.ts:90-103 | an approved request of this doctor whose patient exists becomes, and only such a request, an `access_granted` entry reading "Access granted" with `responded_at` and the patient's full name |
| DoctorStats.RecentRecords | backend/health/get_doctor_stats.ts:54-70 | `ORDER BY created_at DESC LIMIT 5`: min(5, candidates) entries drawn from the candidates, newest first, none of the left-out candidates newer than a kept one, all `record_added` |
| DoctorStats.RecentAlerts | backend/health/get_doctor_stats.ts:72-88 | `LIMIT 3` newest alerts: min(3, candidates) entries drawn from the candidates, newest first, none left out newer than one kept, all `alert_raised` |
| DoctorStats.RecentAccess | backend/health/get_doctor_stats.ts:90-106 | `LIMIT 3` newest grants by `responded_at`: min(3, candidates) entries drawn from the candidates, newest first, none left out newer than one kept, all `access_granted` |
| DoctorStats.KindSurvives | backend/health/get_doctor_stats.ts:68-69 | sorting and capping keeps each list's entry kind |
| DoctorStats.GetDoctorStats | backend/health/get_doctor_stats.ts:31-122 | each count is the number of qualifying rows (live grants, the doctor's records, the doctor's alerts), bounded by its table's size; the feed is `RecentActivity` of the same tables |
| DoctorStats.JsNewerIsTotalPreorder | backend/health/get_doctor_stats.ts:110 | the JavaScript comparator is a total preorder |
| DoctorStats.SqlNewerIsTotalPreorder | backend/health/get_doctor_stats.ts:68 | `ORDER BY … DESC` with nulls first is a total preorder |
| DoctorStats.RecentActivity | backend/health/get_doctor_stats.ts:109-111 | the merged feed has min(10, total) entries drawn from the three lists |
| DoctorStats.RecentActivityCorrect | backend/health/get_doctor_stats.ts:109-122 | the feed is the first min(10, total) entries of the concatenation sorted by date: drawn from the three lists, newest first, no left-out entry newer than a kept one, equal dates in concatenation order, each entry's kind that of its list |
| DoctorStats.ExpiredGrantsStillListed | backend/health/get_doctor_stats.ts:103 | an expired approved grant still yields `access_granted` activity |
| DoctorStats.TotalPatientsCountsRows | backend/health/get_doctor_stats.ts:31-37 | `total_patients` counts grant rows: two live grants from one patient count twice |
| DoctorStats.AddedRecordIsCounted | backend/health/get_doctor_stats.ts:40-44 | a record added by the doctor raises `total_records_added` by exactly one |
| Tables.CountWhere | backend/health/get_doctor_stats.ts:40-44 | `COUNT(*)` under a filter: at most the table's size, and zero iff no row qualifies |
| Tables.CountWhereIsCardinality | backend/health/get_doctor_stats.ts:31-51 | the count equals the number of row positions that qualify |
| Tables.FilterMapMultiplicity | backend/health/list_patient_records.ts:22-31 | a row produced by a filtering join occurs once per source position that produces it |
| Sorting.SortBy | backend/health/list_medical_records.ts:41 | `ORDER BY`: the result has the input's length and is a permutation of it |
| Sorting.SortByIsSorted | backend/health/list_medical_records.ts:41 | under a total preorder the result is sorted |
| Sorting.SortByIsStable | backend/health/get_doctor_stats.ts:110 | entries that tie keep their input order, as `Array.prototype.sort` guarantees |
| Sorting.Take | backend/health/get_doctor_stats.ts:111 | `LIMIT n` and `slice(0, n)`: a prefix of min(n, length) entries |
| Sorting.TopOfSortBy | backend/health/get_doctor_stats.ts:68-69 | `ORDER BY … LIMIT n`: a sorted sub-multiset, and every left-out row sorts no earlier than every kept one |
| Identity.Decimal | backend/health/utils.ts:4 | `Date.now().toString()`: at least one character, all decimal digits, and no leading zero |
| Identity.DecimalRoundTrip | backend/health/utils.ts:4 | the decimal value of the string is the number |
| Identity.DecimalHasDigits | backend/health/utils.ts:4 | a number of at least 10^k has more than k digits |
| Identity.AtLeastSixDigits | backend/health/utils.ts:4 | a clock of at least 100000 has at least six digits |
| Identity.SliceLast | backend/health/utils.ts:4 | `slice(-k)`: the last k characters, or all when there are fewer |
| Identity.SliceLastValue | backend/health/utils.ts:4 | the last k digits of a decimal string read as its value modulo 10^k |
| Identity.LowerHex | backend/health/utils.ts:5 | `toString('hex')`: two characters per byte |
| Identity.AsciiUpper | backend/health/utils.ts:5 | `toUpperCase()`: same length, each character upper-cased |
| Identity.UpperHex | backend/health/utils.ts:5 | two characters per byte, all in `0-9A-F` |
| Identity.UpperOfLowerHex | backend/health/utils.ts:5 | upper-casing lower-case hex gives upper-case hex |
| Identity.GenerateMedicalId | backend/health/utils.ts:3-7 | `"MID"`, then the last six clock digits (all digits), then eight characters; 17 characters once the clock has six digits |
| Identity.MedicalIdClockPart | backend/health/utils.ts:4-6 | the clock part of a medical ID reads as the clock modulo 1000000 |
| Identity.ParseUpperHex | backend/health/utils.ts:5 | the reader for upper-case hex: half as many bytes as characters |
| Identity.HexRoundTrip | backend/health/utils.ts:5 | reading back upper-case hex returns the bytes |
| Identity.MedicalIdHexPart | backend/health/utils.ts:5-6 | the last eight characters of a medical ID are the random bytes in `0-9A-F`, and they read back as those bytes |
| Identity.GenerateQrCode | backend/health/utils.ts:9-13 | the QR value is the fixed URL prefix followed by the medical ID |
| Identity.MedicalIdOfQr | backend/health/utils.ts:12 | a medical ID is recovered iff the value has the prefix |
| Identity.QrRoundTrip | backend/health/utils.ts:12 | stripping the prefix from a QR value returns its medical ID |
| Identity.QrInjective | backend/health/utils.ts:9-13 | distinct medical IDs get distinct QR values |
| Identity.NewUser | backend/health/register_patient.ts:50-54 | the users row keeps email, role and hash; an absent or empty phone is null |
| Identity.NewPatient | backend/health/register_patient.ts:61-74 | the patients row is linked to its user, and its QR value reads back as its medical ID; empty optional fields are null |
| Identity.NewDoctor | backend/health/register_doctor.ts:58-69 | the doctors row keeps the license and names, and stores the phone exactly as the user row does |
| Identity.UserByEmail | backend/health/login.ts:30-37 | finds a user with that email, or none iff no user has it |
| Identity.PatientByUser | backend/health/login.ts:53-61 | finds the patient row of the user, or none iff there is none |
| Identity.DoctorByUser | backend/health/login.ts:63-71 | finds the doctor row of the user, or none iff there is none |
| Identity.ProfileOf | backend/health/login.ts:49-71 | a patient gets its own row's id, first and last name and medical ID; a doctor its row's id, names and license; a user without a row, and an admin, no profile |
| Identity.Login | backend/health/login.ts:26-83 | succeeds iff a user has the email and the password verifies; an unknown email and a wrong password fail with the same Unauthenticated error |
| Identity.SearchPatient | backend/health/search_patient.ts:21-43 | returns the patient whose medical ID equals the input, with only id, medical ID, names, birth date and gender; NotFound iff none has it |
| Store.AppendUser | backend/health/register_patient.ts:34-54 | a user with the next id and a fresh email keeps ids and emails unique |
| Store.AppendPatient | backend/health/register_patient.ts:61-74 | a patient with the next id keeps patient ids unique |
| Store.AppendDoctor | backend/health/register_doctor.ts:35-69 | a doctor with the next id and a fresh license keeps ids and licenses unique |
| Store.AppendRequest | backend/health/request_access.ts:37-52 | a pending request with the next id, for a pair with nothing pending, keeps the ledger invariant |
| Store.RemoveRecord | backend/health/delete_medical_record.ts:61-63 | deleting one record keeps the remaining ids distinct |
| Store.HealthStore.constructor | backend/health/db.ts:1-5 | an empty database whose serial counters all start at 1 |
| Store.HealthStore.RequestAccess | backend/health/request_access.ts:18-62 | unknown patient fails first, then unknown doctor, then a pending duplicate; on success one pending row with a seven-day expiry is appended; no other table changes |
| Store.HealthStore.RespondAccessRequest | backend/health/respond_access_request.ts:16-38 | unknown id fails NotFound; a non-pending row fails FailedPrecondition; otherwise only that row's status and `responded_at` change; a non-pending row never changes |
| Store.HealthStore.AddMedicalRecord | backend/health/add_medical_record.ts:18-57 | succeeds iff no doctor is named or the named doctor holds a live grant; success appends `NewRecord` and returns its id; failure changes nothing |
| Store.HealthStore.DeleteMedicalRecord | backend/health/delete_medical_record.ts:16-67 | unknown record fails NotFound; the ownership rule decides; when allowed the file removal is attempted and the row is removed whatever the bucket answers; other records stay unchanged |
| Store.HealthStore.UpdateRecordSummary | backend/health/update_record_summary.ts:16-38 | fails NotFound iff the record is missing; otherwise only that row becomes `WithSummaries` of itself |
| Store.HealthStore.CreateAlert | backend/health/create_alert.ts:16-47 | succeeds iff the doctor holds a live grant for the patient; success appends `NewAlert` and returns its id; failure changes nothing |
| Store.HealthStore.UpdateAlertStatus | backend/health/update_alert_status.ts:16-35 | fails NotFound iff the alert is missing; otherwise only that row becomes `WithStatus` of itself |
| Store.HealthStore.RegisterPatient | backend/health/register_patient.ts:30-86 | a used email fails with nothing inserted; otherwise one patient user and one linked patient row with the generated medical ID and its QR value are appended |
| Store.HealthStore.InsertPatientUser | backend/health/register_patient.ts:50-74 | the two inserts append exactly the user and the patient and advance their counters |
| Store.HealthStore.RegisterDoctor | backend/health/register_doctor.ts:22-78 | a used email fails first, then a used license; otherwise one doctor user and one doctor row are appended |
| Store.HealthStore.RegisterAdmin | backend/health/register_admin.ts:16-45 | a used email fails; otherwise exactly one admin user is appended and no profile row is created |
| Scenarios.RespondKeepsIndex | backend/health/respond_access_request.ts:31-35 | answering a request keeps it findable under the same id |
| Scenarios.NewestRowIsFound | backend/health/request_access.ts:49-57 | the row just inserted is the one its returned id finds |
| Scenarios.AnswerTwice | backend/health/respond_access_request.ts:26-35 | a second answer to the same request always fails, whatever the answers are |
| Scenarios.ApprovedRequestIsLive | backend/health/request_access.ts:49-52 | an approved request is a live grant until seven days after it was made |
| Scenarios.GrantThenWrite | backend/health/add_medical_record.ts:24-49 | request, approval and a record write in the window all succeed, and the record is then listed for the patient |
| Scenarios.RegisterTwice | backend/health/register_doctor.ts:26-32 | a second sign-up with an email already in use fails with AlreadyExists |
| DocumentViewer.AsciiLower | frontend/components/DocumentViewer.tsx:113 | `toLowerCase()`: same length, each letter lower-cased |
| DocumentViewer.AfterLastDot | frontend/components/DocumentViewer.tsx:113 | `split('.').pop()`: a dot-free suffix of the name, preceded by a dot unless it is the whole name |
| DocumentViewer.GetFileExtension | frontend/components/DocumentViewer.tsx:112-114 | the extension has no dot and no upper-case letter |
| DocumentViewer.ExtensionAfterLastDot | frontend/components/DocumentViewer.tsx:112-114 | the extension of `stem.ext` is `ext` lower-cased, whatever the stem holds |
| DocumentViewer.EdgeCases | frontend/components/DocumentViewer.tsx:113 | a dotless name is its own extension, lower-cased; a trailing dot gives `""` |
| DocumentViewer.IsImageFile | frontend/components/DocumentViewer.tsx:116-119 | an image has a non-empty extension other than `pdf` |
| DocumentViewer.IsPdfFile | frontend/components/DocumentViewer.tsx:121-124 | a PDF name has at least three characters and is not an image |
| DocumentViewer.ClassifiedByExtension | frontend/components/DocumentViewer.tsx:112-124 | `stem.ext` is an image iff `ext` lower-cased is jpg, jpeg, png, gif or webp, and a PDF iff it is `pdf` |
| DocumentViewer.NeverBoth | frontend/components/DocumentViewer.tsx:118-123 | no name is both an image and a PDF |
| DocumentViewer.PdfAnyCase | frontend/components/DocumentViewer.tsx:112-124 | `.PDF` and `.pdf` are both PDFs |
| DocumentViewer.JpegAnyCase | frontend/components/DocumentViewer.tsx:112-119 | `.JPEG` is an image |
| Language.Code | frontend/contexts/LanguageContext.tsx:218-221 | the persisted code is `en` or `hi` |
| Language.ParseCode | frontend/contexts/LanguageContext.tsx:211-214 | a stored value is adopted iff it is exactly `en` or `hi` |
| Language.CodeRoundTrip | frontend/contexts/LanguageContext.tsx:211-221 | reading a persisted code gives back its language |
| Language.T | frontend/contexts/LanguageContext.tsx:223-225 | the current language's non-empty entry, or the key itself |
| Language.Table | frontend/contexts/LanguageContext.tsx:14-205 | a string has an entry iff it is one of the 73 keys; the entry is that key's text in the chosen language |
| Language.SameKeys | frontend/contexts/LanguageContext.tsx:14-205 | a string has an English entry iff it has a Hindi one; both tables are total over one key type, so this holds by construction |
| Language.EntriesAreNonEmpty | frontend/contexts/LanguageContext.tsx:14-205 | for every key, `t` returns that key's non-empty text; entries have a non-empty text type, so `\|\| key` never replaces one |
| Language.LanguageLabelIsNotACode | frontend/contexts/LanguageContext.tsx:106-202 | `t('language')` is "Language" or "भाषा", never `en` or `hi` |
| Language.LanguageState.constructor | frontend/contexts/LanguageContext.tsx:208-209 | the provider starts in English |
| Language.LanguageState.AdoptStored | frontend/contexts/LanguageContext.tsx:211-216 | a stored `en` or `hi` becomes the language; anything else leaves it |
| Language.LanguageState.SetLanguage | frontend/contexts/LanguageContext.tsx:218-221 | the state and the persisted value both become the choice |
| Language.LanguageState.Translate | frontend/contexts/LanguageContext.tsx:223-225 | the provider's `t`: the entry in the current language, or the key when there is none |
| Language.ChoiceSurvivesReload | frontend/contexts/LanguageContext.tsx:211-221 | a chosen language is the language of the next provider mounted on the persisted value |
| RecordDialog.Localized | frontend/components/AddMedicalRecordDialog.tsx:49-51 | the Hindi text is chosen iff the label equals `hi` |
| RecordDialog.ValidateFile | frontend/components/AddMedicalRecordDialog.tsx:44-61 | no error iff the type is allowed and the size is at most 10485760; a bad type is reported before the size |
| RecordDialog.TypeCheckedFirst | frontend/components/AddMedicalRecordDialog.tsx:48-58 | a disallowed type gets the type message whatever the size |
| RecordDialog.SizeBoundary | frontend/components/AddMedicalRecordDialog.tsx:46-58 | exactly 10485760 bytes pass and one more byte fails |
| RecordDialog.ValidatorSpeaksEnglish | frontend/components/AddMedicalRecordDialog.tsx:49-57 | with `t('language')` as the label, the Hindi messages never appear |
| RecordDialog.TrimStart | frontend/components/AddMedicalRecordDialog.tsx:157 | drops exactly the leading whitespace |
| RecordDialog.TrimEnd | frontend/components/AddMedicalRecordDialog.tsx:157 | drops exactly the trailing whitespace |
| RecordDialog.Trim | frontend/components/AddMedicalRecordDialog.tsx:157 | `trim()`: a slice of the input with whitespace only outside it and none at its ends |
| RecordDialog.TrimEmptyIff | frontend/components/AddMedicalRecordDialog.tsx:157 | a title trims to nothing iff it is all whitespace |
| RecordDialog.TitleError | frontend/components/AddMedicalRecordDialog.tsx:157-166 | submission stops with a title message iff the trimmed title is empty |
| RecordDialog.TitleGuardCases | frontend/components/AddMedicalRecordDialog.tsx:157-166 | an all-whitespace title is refused, any other passes, and the message is the English one |
| RecordDialog.RecordForm.constructor | frontend/components/AddMedicalRecordDialog.tsx:31-39 | the form starts empty, with no file and no error |
| RecordDialog.RecordForm.HandleFileChange | frontend/components/AddMedicalRecordDialog.tsx:63-76 | no file: nothing changes; rejected file: file and input cleared, message set; accepted file: file set, message cleared; a selected file always passes the validator |
| RecordDialog.RecordForm.RemoveFile | frontend/components/AddMedicalRecordDialog.tsx:78-83 | file, message and input are all cleared |
| RecordDialog.RejectedPickClearsSelection | frontend/components/AddMedicalRecordDialog.tsx:63-76 | an accepted pick followed by a rejected one leaves no file and an English message |

## Left out

- Concurrency: each handler is one atomic step. The read-then-insert races on a pending
  request, an email or a license number are not modelled. The uniqueness invariants hold
  for sequential calls only.
- Object storage: the upload and download handlers and signed URLs are not modelled.
  Removing a file in `deleteMedicalRecord` is the `bucketRemoves` parameter.
- The upload plumbing mismatch is not modelled. The dialog reads `file_path` from the
  upload response, but the response field is `file_url`. The record's `file_url` is
  whatever `addMedicalRecord` is given.
- AI summarization (`backend/ai/summarize.ts`) is an external HTTP call. Its text reaches
  the model only through `updateRecordSummary`.
- `formatFileSize` uses floating-point `Math.log` and `toFixed`, so it is not modelled.
- Persistence: localStorage is the in-memory field `LanguageState.stored`. The auth
  context's storage, the XHR upload progress and the database and bucket declarations are
  not modelled.
- React rendering, dialogs, toasts, routing and the rest of `handleSubmit` (upload, insert
  and summary calls) are not modelled. Only the title guard is.
- Schema defaults live in migrations that are not part of this model. They are taken as
  assumptions: a new request is pending with `requested_at = now`, a new alert is open, and
  `created_at` and `updated_at` are now.
- `Internal` errors from an INSERT that returns no row cannot arise in the model: every
  insert succeeds.
- Foreign keys are not modelled. `addMedicalRecord` and `createAlert` do not check that the
  patient exists, and neither does the model.
- Medical-ID uniqueness is not enforced or assumed. The ID depends on the clock and the
  random bytes, and two registrations can in principle collide.
- Language.T: a key naming a property of every JavaScript object (such as `constructor`)
  finds that property rather than falling back to the key. The model treats it as a
  missing key.
- DocumentViewer.AsciiLower and Identity.AsciiUpper change the letters `A`-`Z` and `a`-`z`
  only. They do not implement Unicode case mapping.
- Listings fix one admissible order among rows that tie under their `ORDER BY`; the
  contracts state only sortedness and a permutation.
- Store.HealthStore.DeleteMedicalRecord compares the record's `patient_id` and `doctor_id`
  with the caller's `user_id`, exactly as the handler does, even though those are ids
  from different tables.
- Identity.SliceLast: for k = 0 it returns the empty string, whereas JavaScript's `slice(-0)`
  returns the whole string. The only caller uses k = 6.
- A grant's seven-day expiry runs from the request time, not the approval time, as in the
  handler.
- `getDoctorStats` compares expiry with `CURRENT_TIMESTAMP`; the model passes it as `now`.
