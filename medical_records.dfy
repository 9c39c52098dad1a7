/** The medical record store: the rows addMedicalRecord and updateRecordSummary write,
    the ownership rule of deleteMedicalRecord, and the per-patient listing. */
module MedicalRecords {
  import opened HealthTypes
  import opened Tables
  import opened Sorting

  /** The body of an addMedicalRecord call; optional fields are `undefined` when absent. */
  datatype AddRecordRequest = AddRecordRequest(
    patientId: int,
    doctorId: Option<int>,
    title: string,
    description: Option<string>,
    recordType: RecordType,
    fileUrl: Option<string>,
    fileName: Option<string>,
    fileSize: Option<int>)

  /** `if (req.doctor_id)`: a doctor id is present only when it is given and not 0. */
  predicate NamesDoctor(req: AddRecordRequest): (b: bool)
    ensures b <==> NonZero(req.doctorId).Some?
  {
    req.doctorId.Some? && req.doctorId.value != 0
  }

  /** The inserted row: JavaScript's `x || null` turns `""` and `0` into null, the title and
      the record type are stored as given, summaries start empty, and both timestamps take
      the schema default (now). */
  function NewRecord(id: int, req: AddRecordRequest, now: Millis): (r: MedicalRecord)
    ensures r.id == id && r.patientId == req.patientId
    ensures r.doctorId == (if NamesDoctor(req) then req.doctorId else None)
    ensures r.title == req.title && r.recordType == req.recordType
    ensures r.description.Some? <==> req.description.Some? && req.description.value != ""
    ensures r.fileUrl.Some? <==> req.fileUrl.Some? && req.fileUrl.value != ""
    ensures r.fileName.Some? <==> req.fileName.Some? && req.fileName.value != ""
    ensures r.fileSize.Some? <==> req.fileSize.Some? && req.fileSize.value != 0
    ensures r.description.Some? ==> r.description == req.description
    ensures r.fileUrl.Some? ==> r.fileUrl == req.fileUrl
    ensures r.fileName.Some? ==> r.fileName == req.fileName
    ensures r.fileSize.Some? ==> r.fileSize == req.fileSize
    ensures r.patientSummary.None? && r.doctorSummary.None? && r.summaryGeneratedAt.None?
    ensures r.createdAt == now && r.updatedAt == now
  {
    MedicalRecord(id, req.patientId, NonZero(req.doctorId), req.title, OrNull(req.description), req.recordType,
      OrNull(req.fileUrl), OrNull(req.fileName), NonZero(req.fileSize), None, None, None, now, now)
  }

  /** updateRecordSummary's UPDATE: both summary columns are overwritten (absent or `""`
      becomes null) and `summary_generated_at` is stamped; nothing else changes, not even
      `updated_at`. */
  function WithSummaries(r: MedicalRecord, patientSummary: Option<string>, doctorSummary: Option<string>, now: Millis): (r': MedicalRecord)
    ensures r'.patientSummary.Some? <==> patientSummary.Some? && patientSummary.value != ""
    ensures r'.doctorSummary.Some? <==> doctorSummary.Some? && doctorSummary.value != ""
    ensures r'.patientSummary.Some? ==> r'.patientSummary == patientSummary
    ensures r'.doctorSummary.Some? ==> r'.doctorSummary == doctorSummary
    ensures r'.summaryGeneratedAt == Some(now)
    ensures r'.(patientSummary := r.patientSummary, doctorSummary := r.doctorSummary, summaryGeneratedAt := r.summaryGeneratedAt) == r
  {
    r.(patientSummary := OrNull(patientSummary), doctorSummary := OrNull(doctorSummary), summaryGeneratedAt := Some(now))
  }

  /** Repeating a summary update gives the same row apart from the timestamp, and supplying
      only the doctor's summary erases the patient's. */
  lemma SummaryUpdateOverwrites(r: MedicalRecord, ps: Option<string>, ds: Option<string>, t1: Millis, t2: Millis)
    ensures WithSummaries(WithSummaries(r, ps, ds, t1), ps, ds, t2) == WithSummaries(r, ps, ds, t2)
    ensures WithSummaries(r, None, ds, t1).patientSummary.None?
  {
  }

  /** The role-and-ownership rule of deleteMedicalRecord. A patient may delete a record of
      theirs, a doctor one they authored, and no other role anything. Neither grants nor
      the access ledger play any part. */
  function DeleteDenial(record: MedicalRecord, userId: int, role: Role): (e: Option<ApiError>)
    ensures e.None? <==> (role == PatientRole && record.patientId == userId) || (role == DoctorRole && record.doctorId == Some(userId))
    ensures e.Some? ==> e.value.code == PermissionDenied
  {
    match role
    case PatientRole =>
      if record.patientId != userId then Some(ApiError(PermissionDenied, "You can only delete your own medical records")) else None
    case DoctorRole =>
      if record.doctorId != Some(userId) then Some(ApiError(PermissionDenied, "You can only delete medical records you created")) else None
    case AdminRole =>
      Some(ApiError(PermissionDenied, "Invalid user role"))
  }

  /** A doctor can never delete a record a patient added (its doctor is null). */
  lemma DoctorCannotDeletePatientRecord(record: MedicalRecord, userId: int)
    requires record.doctorId.None?
    ensures DeleteDenial(record, userId, DoctorRole).Some?
  {
  }

  // ---------------------------------------------------------------------------------
  // listMedicalRecords

  /** A record row with its author's display name; null when it has no doctor or the
      doctor row is missing (the LEFT JOIN). */
  datatype MedicalRecordWithDoctor = MedicalRecordWithDoctor(record: MedicalRecord, doctorName: Option<string>)

  function AuthorName(doctors: seq<Doctor>, r: MedicalRecord): (n: Option<string>)
    ensures n.Some? <==> r.doctorId.Some? && DoctorById(doctors, r.doctorId.value).Some?
    ensures n.Some? ==> n.value == FullName(DoctorById(doctors, r.doctorId.value).value.firstName, DoctorById(doctors, r.doctorId.value).value.lastName)
  {
    if r.doctorId.None? then None
    else match DoctorById(doctors, r.doctorId.value)
      case None => None
      case Some(d) => Some(FullName(d.firstName, d.lastName))
  }

  /** `medical_records mr LEFT JOIN doctors d ... WHERE mr.patient_id = p`, in table order. */
  function PatientRecords(doctors: seq<Doctor>, records: seq<MedicalRecord>, patientId: int): (rows: seq<MedicalRecordWithDoctor>)
    ensures |rows| <= |records|
    ensures forall x :: x in rows ==> x.record in records && x.record.patientId == patientId && x.doctorName == AuthorName(doctors, x.record)
    ensures forall r :: r in records && r.patientId == patientId ==> MedicalRecordWithDoctor(r, AuthorName(doctors, r)) in rows
  {
    if records == [] then []
    else
      var rest := PatientRecords(doctors, records[1..], patientId);
      assert forall r :: r in records <==> r == records[0] || r in records[1..];
      if records[0].patientId == patientId then [MedicalRecordWithDoctor(records[0], AuthorName(doctors, records[0]))] + rest
      else rest
  }

  predicate CreatedLater(a: MedicalRecordWithDoctor, b: MedicalRecordWithDoctor)
  {
    a.record.createdAt >= b.record.createdAt
  }

  /** A patient's records, newest first, each with its author's name when there is one. */
  function ListMedicalRecords(doctors: seq<Doctor>, records: seq<MedicalRecord>, patientId: int): (r: seq<MedicalRecordWithDoctor>)
    ensures multiset(r) == multiset(PatientRecords(doctors, records, patientId))
  {
    SortBy(PatientRecords(doctors, records, patientId), CreatedLater)
  }

  /** The listing holds every record of the patient and only those, all columns passed
      through, records without a doctor included with a null name, newest first. */
  lemma {:induction false} ListMedicalRecordsCorrect(doctors: seq<Doctor>, records: seq<MedicalRecord>, patientId: int)
    ensures var out := ListMedicalRecords(doctors, records, patientId);
      && (forall i, j :: 0 <= i < j < |out| ==> out[i].record.createdAt >= out[j].record.createdAt)
      && (forall x :: x in out ==> x.record in records && x.record.patientId == patientId)
      && (forall r :: r in records && r.patientId == patientId ==> MedicalRecordWithDoctor(r, AuthorName(doctors, r)) in out)
      && (forall x :: x in out && x.record.doctorId.None? ==> x.doctorName.None?)
  {
    var rows := PatientRecords(doctors, records, patientId);
    var out := ListMedicalRecords(doctors, records, patientId);
    assert TotalPreorder(CreatedLater);
    SortByIsSorted(rows, CreatedLater);
    forall x ensures x in out <==> x in rows {
      assert x in out <==> x in multiset(out);
    }
  }

  /** A record added and then listed for its patient shows every supplied field. */
  lemma AddedRecordIsListed(doctors: seq<Doctor>, records: seq<MedicalRecord>, id: int, req: AddRecordRequest, now: Millis)
    ensures exists x :: x in ListMedicalRecords(doctors, records + [NewRecord(id, req, now)], req.patientId) && x.record == NewRecord(id, req, now)
  {
    var rs := records + [NewRecord(id, req, now)];
    ListMedicalRecordsCorrect(doctors, rs, req.patientId);
    assert NewRecord(id, req, now) in rs;
  }
}
