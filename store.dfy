/** The portal's database as one object, and the handlers that write to it. Each handler
    runs its guard queries and then its single INSERT, UPDATE or DELETE as one atomic step;
    the read-only handlers are the functions of the other modules, applied to these fields.
    Serial ids come from the `next...Id` counters, as a Postgres SERIAL column would hand
    them out. */
module Store {
  import opened HealthTypes
  import opened Tables
  import opened AccessGrants
  import opened MedicalRecords
  import opened Alerts
  import opened Identity

  /** What registerPatient returns. */
  datatype PatientRegistered = PatientRegistered(userId: int, patientId: int, medicalId: string, qrCode: string)

  /** What registerDoctor returns. */
  datatype DoctorRegistered = DoctorRegistered(userId: int, doctorId: int)

  /** What deleteMedicalRecord did: the outcome, and the stored file it asked the bucket
      to remove (none when it did not get that far or the record has no file). */
  datatype Deletion = Deletion(result: Result<bool>, fileRemovalAttempted: Option<string>)

  const PatientNotFound: ApiError := ApiError(NotFound, "Patient not found")
  const DoctorNotFound: ApiError := ApiError(NotFound, "Doctor not found")
  const AlreadyPending: ApiError := ApiError(AlreadyExists, "Access request already pending")
  const RequestNotFound: ApiError := ApiError(NotFound, "Access request not found")
  const AlreadyAnswered: ApiError := ApiError(FailedPrecondition, "Access request has already been responded to")
  const NoAccess: ApiError := ApiError(PermissionDenied, "Doctor does not have access to this patient")
  const RecordNotFound: ApiError := ApiError(NotFound, "Medical record not found")
  const AlertNotFound: ApiError := ApiError(NotFound, "Alert not found")
  const EmailTaken: ApiError := ApiError(AlreadyExists, "User with this email already exists")
  const LicenseTaken: ApiError := ApiError(AlreadyExists, "Doctor with this license number already exists")

  predicate EmailInUse(users: seq<User>, email: string)
  {
    exists i :: 0 <= i < |users| && users[i].email == email
  }

  predicate LicenseInUse(doctors: seq<Doctor>, license: string)
  {
    exists i :: 0 <= i < |doctors| && doctors[i].licenseNumber == license
  }

  /** Serial ids: every id is below the next one to be handed out, so ids are distinct. */
  ghost predicate UsersOk(users: seq<User>, next: int)
  {
    && (forall i :: 0 <= i < |users| ==> users[i].id < next)
    && (forall i, j :: 0 <= i < j < |users| ==> users[i].id != users[j].id && users[i].email != users[j].email)
  }

  ghost predicate PatientsOk(patients: seq<Patient>, next: int)
  {
    && (forall i :: 0 <= i < |patients| ==> patients[i].id < next)
    && (forall i, j :: 0 <= i < j < |patients| ==> patients[i].id != patients[j].id)
  }

  ghost predicate DoctorsOk(doctors: seq<Doctor>, next: int)
  {
    && (forall i :: 0 <= i < |doctors| ==> doctors[i].id < next)
    && (forall i, j :: 0 <= i < j < |doctors| ==> doctors[i].id != doctors[j].id && doctors[i].licenseNumber != doctors[j].licenseNumber)
  }

  ghost predicate RequestsOk(requests: seq<AccessRequest>, next: int)
  {
    && (forall i :: 0 <= i < |requests| ==> requests[i].id < next)
    && (forall i, j :: 0 <= i < j < |requests| ==> requests[i].id != requests[j].id)
    && AtMostOnePending(requests)
  }

  ghost predicate RecordsOk(records: seq<MedicalRecord>, next: int)
  {
    && (forall i :: 0 <= i < |records| ==> records[i].id < next)
    && (forall i, j :: 0 <= i < j < |records| ==> records[i].id != records[j].id)
  }

  ghost predicate AlertsOk(alerts: seq<Alert>, next: int)
  {
    && (forall i :: 0 <= i < |alerts| ==> alerts[i].id < next)
    && (forall i, j :: 0 <= i < j < |alerts| ==> alerts[i].id != alerts[j].id)
  }

  /** A user with the next id and a new email keeps ids and emails unique. */
  lemma AppendUser(users: seq<User>, next: int, u: User)
    requires UsersOk(users, next)
    requires u.id == next && !EmailInUse(users, u.email)
    ensures UsersOk(users + [u], next + 1)
  {
  }

  lemma AppendPatient(patients: seq<Patient>, next: int, p: Patient)
    requires PatientsOk(patients, next) && p.id == next
    ensures PatientsOk(patients + [p], next + 1)
  {
  }

  lemma AppendDoctor(doctors: seq<Doctor>, next: int, d: Doctor)
    requires DoctorsOk(doctors, next)
    requires d.id == next && !LicenseInUse(doctors, d.licenseNumber)
    ensures DoctorsOk(doctors + [d], next + 1)
  {
  }

  lemma AppendRequest(requests: seq<AccessRequest>, next: int, ar: AccessRequest)
    requires RequestsOk(requests, next)
    requires ar.id == next && ar.status == Pending && !HasPendingRequest(requests, ar.patientId, ar.doctorId)
    ensures RequestsOk(requests + [ar], next + 1)
  {
    AppendPendingPreservesInvariant(requests, ar);
  }

  /** Deleting a row keeps the remaining ids distinct. */
  lemma RemoveRecord(records: seq<MedicalRecord>, next: int, k: nat)
    requires RecordsOk(records, next) && k < |records|
    ensures RecordsOk(RemoveAt(records, k), next)
  {
    var r := RemoveAt(records, k);
    forall i, j | 0 <= i < j < |r| ensures r[i].id != r[j].id {
      var i' := if i < k then i else i + 1;
      var j' := if j < k then j else j + 1;
      assert r[i] == records[i'] && r[j] == records[j'];
    }
  }

  class HealthStore {
    var users: seq<User>
    var patients: seq<Patient>
    var doctors: seq<Doctor>
    var requests: seq<AccessRequest>
    var records: seq<MedicalRecord>
    var alerts: seq<Alert>

    var nextUserId: int
    var nextPatientId: int
    var nextDoctorId: int
    var nextRequestId: int
    var nextRecordId: int
    var nextAlertId: int

    /** Every id is below its table's counter and ids are distinct; emails and license
        numbers are unique; at most one request per (patient, doctor) pair is pending. */
    ghost predicate Valid()
      reads this
    {
      && UsersOk(users, nextUserId)
      && PatientsOk(patients, nextPatientId)
      && DoctorsOk(doctors, nextDoctorId)
      && RequestsOk(requests, nextRequestId)
      && RecordsOk(records, nextRecordId)
      && AlertsOk(alerts, nextAlertId)
    }

    /** An empty database; every serial starts at 1. */
    constructor ()
      ensures Valid()
      ensures users == [] && patients == [] && doctors == [] && requests == [] && records == [] && alerts == []
      ensures nextUserId == 1 && nextPatientId == 1 && nextDoctorId == 1
      ensures nextRequestId == 1 && nextRecordId == 1 && nextAlertId == 1
    {
      users, patients, doctors := [], [], [];
      requests, records, alerts := [], [], [];
      nextUserId, nextPatientId, nextDoctorId := 1, 1, 1;
      nextRequestId, nextRecordId, nextAlertId := 1, 1, 1;
    }

    // -------------------------------------------------------------------------------
    // The access-grant ledger

    /** requestAccess: the patient must exist (checked first), then the doctor, then no
        request of the pair may be pending; approved or denied ones do not block. On
        success one pending row with a seven-day expiry is appended. */
    method RequestAccess(patientId: int, doctorId: int, reason: Option<string>, now: Millis) returns (r: Result<int>)
      requires Valid()
      modifies this
      ensures Valid()
      ensures PatientById(old(patients), patientId).None? ==> r == Err(PatientNotFound)
      ensures PatientById(old(patients), patientId).Some? && DoctorById(old(doctors), doctorId).None? ==> r == Err(DoctorNotFound)
      ensures PatientById(old(patients), patientId).Some? && DoctorById(old(doctors), doctorId).Some? && HasPendingRequest(old(requests), patientId, doctorId)
        ==> r == Err(AlreadyPending)
      ensures r.Ok? <==> PatientById(old(patients), patientId).Some? && DoctorById(old(doctors), doctorId).Some? && !HasPendingRequest(old(requests), patientId, doctorId)
      ensures r.Err? ==> requests == old(requests) && nextRequestId == old(nextRequestId)
      ensures r.Ok? ==> (r.value == old(nextRequestId) && nextRequestId == old(nextRequestId) + 1
        && requests == old(requests) + [NewRequest(r.value, patientId, doctorId, reason, now)])
      ensures users == old(users) && patients == old(patients) && doctors == old(doctors) && records == old(records) && alerts == old(alerts)
      ensures nextUserId == old(nextUserId) && nextPatientId == old(nextPatientId) && nextDoctorId == old(nextDoctorId)
      ensures nextRecordId == old(nextRecordId) && nextAlertId == old(nextAlertId)
    {
      if PatientById(patients, patientId).None? {
        return Err(PatientNotFound);
      }
      if DoctorById(doctors, doctorId).None? {
        return Err(DoctorNotFound);
      }
      if HasPendingRequest(requests, patientId, doctorId) {
        return Err(AlreadyPending);
      }
      var ar := NewRequest(nextRequestId, patientId, doctorId, reason, now);
      AppendRequest(requests, nextRequestId, ar);
      requests := requests + [ar];
      r := Ok(nextRequestId);
      nextRequestId := nextRequestId + 1;
    }

    /** respondAccessRequest: the request must exist and still be pending; then only its
        status and `responded_at` change. Nobody's identity is checked. */
    method RespondAccessRequest(requestId: int, decision: Decision, now: Millis) returns (r: Result<bool>)
      requires Valid()
      modifies this
      ensures Valid()
      ensures RequestIndex(old(requests), requestId).None? ==> r == Err(RequestNotFound)
      ensures RequestIndex(old(requests), requestId).Some? && old(requests)[RequestIndex(old(requests), requestId).value].status != Pending
        ==> r == Err(AlreadyAnswered)
      ensures r.Ok? <==> RequestIndex(old(requests), requestId).Some? && old(requests)[RequestIndex(old(requests), requestId).value].status == Pending
      ensures r.Err? ==> requests == old(requests)
      ensures r.Ok? ==> (r.value && RequestIndex(old(requests), requestId).Some?
        && var k := RequestIndex(old(requests), requestId).value;
           old(requests)[k].status == Pending && requests == old(requests)[k := Respond(old(requests)[k], decision, now)])
      ensures |requests| == |old(requests)|
      ensures forall i :: 0 <= i < |requests| && old(requests)[i].status != Pending ==> requests[i] == old(requests)[i]
      ensures users == old(users) && patients == old(patients) && doctors == old(doctors) && records == old(records) && alerts == old(alerts)
      ensures nextUserId == old(nextUserId) && nextPatientId == old(nextPatientId) && nextDoctorId == old(nextDoctorId)
      ensures nextRequestId == old(nextRequestId) && nextRecordId == old(nextRecordId) && nextAlertId == old(nextAlertId)
    {
      var k := RequestIndex(requests, requestId);
      if k.None? {
        return Err(RequestNotFound);
      }
      if requests[k.value].status != Pending {
        return Err(AlreadyAnswered);
      }
      RespondPreservesInvariant(requests, k.value, decision, now);
      requests := requests[k.value := Respond(requests[k.value], decision, now)];
      r := Ok(true);
    }

    // -------------------------------------------------------------------------------
    // The medical record store

    /** addMedicalRecord: a record naming a doctor (a truthy `doctor_id`) needs that
        doctor's live grant for the patient; one without skips the check. The new row is
        appended and its id returned. */
    method AddMedicalRecord(req: AddRecordRequest, now: Millis) returns (r: Result<int>)
      requires Valid()
      modifies this
      ensures Valid()
      ensures r.Ok? <==> !NamesDoctor(req) || HasLiveGrant(old(requests), req.patientId, req.doctorId.value, now)
      ensures r.Err? ==> r.error == NoAccess && records == old(records) && nextRecordId == old(nextRecordId)
      ensures r.Ok? ==> (r.value == old(nextRecordId) && nextRecordId == old(nextRecordId) + 1
        && records == old(records) + [NewRecord(r.value, req, now)])
      ensures users == old(users) && patients == old(patients) && doctors == old(doctors) && requests == old(requests) && alerts == old(alerts)
      ensures nextUserId == old(nextUserId) && nextPatientId == old(nextPatientId) && nextDoctorId == old(nextDoctorId)
      ensures nextRequestId == old(nextRequestId) && nextAlertId == old(nextAlertId)
    {
      if NamesDoctor(req) && !HasLiveGrant(requests, req.patientId, req.doctorId.value, now) {
        return Err(NoAccess);
      }
      records := records + [NewRecord(nextRecordId, req, now)];
      r := Ok(nextRecordId);
      nextRecordId := nextRecordId + 1;
    }

    /** deleteMedicalRecord: the record must exist and pass the ownership rule; then the
        file, if any, is handed to the bucket and the row is deleted whether or not the
        bucket succeeds (`bucketRemoves` stands for the bucket's answer). */
    method DeleteMedicalRecord(recordId: int, userId: int, role: Role, bucketRemoves: bool) returns (d: Deletion)
      requires Valid()
      modifies this
      ensures Valid()
      ensures RecordIndex(old(records), recordId).None? ==> d == Deletion(Err(RecordNotFound), None)
      ensures RecordIndex(old(records), recordId).Some? ==> var k := RecordIndex(old(records), recordId).value;
        && (DeleteDenial(old(records)[k], userId, role).Some? ==> d == Deletion(Err(DeleteDenial(old(records)[k], userId, role).value), None))
        && (DeleteDenial(old(records)[k], userId, role).None? ==>
              d == Deletion(Ok(true), OrNull(old(records)[k].fileUrl)) && records == RemoveAt(old(records), k))
      ensures d.result.Err? ==> records == old(records)
      ensures users == old(users) && patients == old(patients) && doctors == old(doctors) && requests == old(requests) && alerts == old(alerts)
      ensures nextUserId == old(nextUserId) && nextPatientId == old(nextPatientId) && nextDoctorId == old(nextDoctorId)
      ensures nextRequestId == old(nextRequestId) && nextRecordId == old(nextRecordId) && nextAlertId == old(nextAlertId)
    {
      var k := RecordIndex(records, recordId);
      if k.None? {
        return Deletion(Err(RecordNotFound), None);
      }
      var record := records[k.value];
      var denial := DeleteDenial(record, userId, role);
      if denial.Some? {
        return Deletion(Err(denial.value), None);
      }
      var attempted := OrNull(record.fileUrl);
      // The bucket's failure is logged and ignored: `bucketRemoves` changes nothing below.
      RemoveRecord(records, nextRecordId, k.value);
      records := RemoveAt(records, k.value);
      d := Deletion(Ok(true), attempted);
    }

    /** updateRecordSummary: the record must exist; then both summaries are overwritten
        and the summary timestamp set. */
    method UpdateRecordSummary(recordId: int, patientSummary: Option<string>, doctorSummary: Option<string>, now: Millis) returns (r: Result<bool>)
      requires Valid()
      modifies this
      ensures Valid()
      ensures r.Err? <==> RecordIndex(old(records), recordId).None?
      ensures r.Err? ==> r.error == RecordNotFound && records == old(records)
      ensures r.Ok? ==> (r.value && var k := RecordIndex(old(records), recordId).value;
        records == old(records)[k := WithSummaries(old(records)[k], patientSummary, doctorSummary, now)])
      ensures users == old(users) && patients == old(patients) && doctors == old(doctors) && requests == old(requests) && alerts == old(alerts)
      ensures nextUserId == old(nextUserId) && nextPatientId == old(nextPatientId) && nextDoctorId == old(nextDoctorId)
      ensures nextRequestId == old(nextRequestId) && nextRecordId == old(nextRecordId) && nextAlertId == old(nextAlertId)
    {
      var k := RecordIndex(records, recordId);
      if k.None? {
        return Err(RecordNotFound);
      }
      records := records[k.value := WithSummaries(records[k.value], patientSummary, doctorSummary, now)];
      r := Ok(true);
    }

    // -------------------------------------------------------------------------------
    // The alert ledger

    /** createAlert: the doctor needs a live grant for the patient, the same gate as for
        adding a record; the new alert is appended and its id returned. */
    method CreateAlert(doctorId: int, patientId: int, severity: Severity, title: string, description: string, now: Millis) returns (r: Result<int>)
      requires Valid()
      modifies this
      ensures Valid()
      ensures r.Ok? <==> HasLiveGrant(old(requests), patientId, doctorId, now)
      ensures r.Err? ==> r.error == NoAccess && alerts == old(alerts) && nextAlertId == old(nextAlertId)
      ensures r.Ok? ==> (r.value == old(nextAlertId) && nextAlertId == old(nextAlertId) + 1
        && alerts == old(alerts) + [NewAlert(r.value, doctorId, patientId, severity, title, description, now)])
      ensures users == old(users) && patients == old(patients) && doctors == old(doctors) && requests == old(requests) && records == old(records)
      ensures nextUserId == old(nextUserId) && nextPatientId == old(nextPatientId) && nextDoctorId == old(nextDoctorId)
      ensures nextRequestId == old(nextRequestId) && nextRecordId == old(nextRecordId)
    {
      if !HasLiveGrant(requests, patientId, doctorId, now) {
        return Err(NoAccess);
      }
      alerts := alerts + [NewAlert(nextAlertId, doctorId, patientId, severity, title, description, now)];
      r := Ok(nextAlertId);
      nextAlertId := nextAlertId + 1;
    }

    /** updateAlertStatus: the alert must exist; then status, notes and `updated_at` are
        overwritten, whatever the status was. */
    method UpdateAlertStatus(alertId: int, status: AlertStatus, adminNotes: Option<string>, now: Millis) returns (r: Result<bool>)
      requires Valid()
      modifies this
      ensures Valid()
      ensures r.Err? <==> AlertIndex(old(alerts), alertId).None?
      ensures r.Err? ==> r.error == AlertNotFound && alerts == old(alerts)
      ensures r.Ok? ==> (r.value && var k := AlertIndex(old(alerts), alertId).value;
        alerts == old(alerts)[k := WithStatus(old(alerts)[k], status, adminNotes, now)])
      ensures users == old(users) && patients == old(patients) && doctors == old(doctors) && requests == old(requests) && records == old(records)
      ensures nextUserId == old(nextUserId) && nextPatientId == old(nextPatientId) && nextDoctorId == old(nextDoctorId)
      ensures nextRequestId == old(nextRequestId) && nextRecordId == old(nextRecordId) && nextAlertId == old(nextAlertId)
    {
      var k := AlertIndex(alerts, alertId);
      if k.None? {
        return Err(AlertNotFound);
      }
      alerts := alerts[k.value := WithStatus(alerts[k.value], status, adminNotes, now)];
      r := Ok(true);
    }

    // -------------------------------------------------------------------------------
    // The identity registry

    /** registerPatient: the email must be new; then a patient user and its patient row
        are appended, the row carrying the generated medical ID and its QR value.
        `passwordHash` is bcrypt's hash of the password; `nowMillis` and `random` are the
        clock and the four random bytes. */
    method RegisterPatient(req: PatientSignup, passwordHash: string, nowMillis: nat, random: seq<byte>) returns (r: Result<PatientRegistered>)
      requires Valid()
      requires |random| == 4
      modifies this
      ensures Valid()
      ensures r.Err? <==> EmailInUse(old(users), req.email)
      ensures EmailInUse(users, req.email)
      ensures r.Err? ==> (r.error == EmailTaken && users == old(users) && patients == old(patients)
        && nextUserId == old(nextUserId) && nextPatientId == old(nextPatientId))
      ensures r.Ok? ==> (var mid := GenerateMedicalId(nowMillis, random);
        && r.value == PatientRegistered(old(nextUserId), old(nextPatientId), mid, GenerateQrCode(mid))
        && users == old(users) + [NewUser(old(nextUserId), req.email, req.phone, PatientRole, passwordHash)]
        && patients == old(patients) + [NewPatient(old(nextPatientId), old(nextUserId), mid, req)]
        && nextUserId == old(nextUserId) + 1 && nextPatientId == old(nextPatientId) + 1)
      ensures doctors == old(doctors) && requests == old(requests) && records == old(records) && alerts == old(alerts)
      ensures nextDoctorId == old(nextDoctorId) && nextRequestId == old(nextRequestId)
      ensures nextRecordId == old(nextRecordId) && nextAlertId == old(nextAlertId)
    {
      if EmailInUse(users, req.email) {
        return Err(EmailTaken);
      }
      var mid := GenerateMedicalId(nowMillis, random);
      var qr := GenerateQrCode(mid);
      r := Ok(PatientRegistered(nextUserId, nextPatientId, mid, qr));
      InsertPatientUser(NewUser(nextUserId, req.email, req.phone, PatientRole, passwordHash), NewPatient(nextPatientId, nextUserId, mid, req));
      assert users[|users| - 1].email == req.email;
    }

    /** The two INSERTs of registerPatient, with the ids they receive. */
    method InsertPatientUser(user: User, patient: Patient)
      requires Valid()
      requires user.id == nextUserId && patient.id == nextPatientId && !EmailInUse(users, user.email)
      modifies this
      ensures Valid()
      ensures users == old(users) + [user] && patients == old(patients) + [patient]
      ensures nextUserId == old(nextUserId) + 1 && nextPatientId == old(nextPatientId) + 1
      ensures doctors == old(doctors) && requests == old(requests) && records == old(records) && alerts == old(alerts)
      ensures nextDoctorId == old(nextDoctorId) && nextRequestId == old(nextRequestId)
      ensures nextRecordId == old(nextRecordId) && nextAlertId == old(nextAlertId)
    {
      AppendUser(users, nextUserId, user);
      AppendPatient(patients, nextPatientId, patient);
      users := users + [user];
      patients := patients + [patient];
      nextUserId := nextUserId + 1;
      nextPatientId := nextPatientId + 1;
    }

    /** registerDoctor: the email must be new (checked first), then the license number;
        then a doctor user and its doctor row are appended. */
    method RegisterDoctor(req: DoctorSignup, passwordHash: string) returns (r: Result<DoctorRegistered>)
      requires Valid()
      modifies this
      ensures Valid()
      ensures EmailInUse(old(users), req.email) ==> r == Err(EmailTaken)
      ensures !EmailInUse(old(users), req.email) && LicenseInUse(old(doctors), req.licenseNumber) ==> r == Err(LicenseTaken)
      ensures r.Ok? <==> !EmailInUse(old(users), req.email) && !LicenseInUse(old(doctors), req.licenseNumber)
      ensures r.Err? ==> users == old(users) && doctors == old(doctors) && nextUserId == old(nextUserId) && nextDoctorId == old(nextDoctorId)
      ensures r.Ok? ==> (r.value == DoctorRegistered(old(nextUserId), old(nextDoctorId))
        && users == old(users) + [NewUser(old(nextUserId), req.email, req.phone, DoctorRole, passwordHash)]
        && doctors == old(doctors) + [NewDoctor(old(nextDoctorId), old(nextUserId), req)]
        && nextUserId == old(nextUserId) + 1 && nextDoctorId == old(nextDoctorId) + 1)
      ensures patients == old(patients) && requests == old(requests) && records == old(records) && alerts == old(alerts)
      ensures nextPatientId == old(nextPatientId) && nextRequestId == old(nextRequestId)
      ensures nextRecordId == old(nextRecordId) && nextAlertId == old(nextAlertId)
    {
      if EmailInUse(users, req.email) {
        return Err(EmailTaken);
      }
      if LicenseInUse(doctors, req.licenseNumber) {
        return Err(LicenseTaken);
      }
      AppendUser(users, nextUserId, NewUser(nextUserId, req.email, req.phone, DoctorRole, passwordHash));
      AppendDoctor(doctors, nextDoctorId, NewDoctor(nextDoctorId, nextUserId, req));
      users := users + [NewUser(nextUserId, req.email, req.phone, DoctorRole, passwordHash)];
      doctors := doctors + [NewDoctor(nextDoctorId, nextUserId, req)];
      r := Ok(DoctorRegistered(nextUserId, nextDoctorId));
      nextUserId := nextUserId + 1;
      nextDoctorId := nextDoctorId + 1;
    }

    /** registerAdmin: the email must be new; then one admin user is appended and no
        profile row is created. */
    method RegisterAdmin(email: string, phone: Option<string>, passwordHash: string) returns (r: Result<int>)
      requires Valid()
      modifies this
      ensures Valid()
      ensures r.Err? <==> EmailInUse(old(users), email)
      ensures r.Err? ==> r.error == EmailTaken && users == old(users) && nextUserId == old(nextUserId)
      ensures r.Ok? ==> (r.value == old(nextUserId) && nextUserId == old(nextUserId) + 1
        && users == old(users) + [NewUser(r.value, email, phone, AdminRole, passwordHash)])
      ensures patients == old(patients) && doctors == old(doctors) && requests == old(requests) && records == old(records) && alerts == old(alerts)
      ensures nextPatientId == old(nextPatientId) && nextDoctorId == old(nextDoctorId) && nextRequestId == old(nextRequestId)
      ensures nextRecordId == old(nextRecordId) && nextAlertId == old(nextAlertId)
    {
      if EmailInUse(users, email) {
        return Err(EmailTaken);
      }
      AppendUser(users, nextUserId, NewUser(nextUserId, email, phone, AdminRole, passwordHash));
      users := users + [NewUser(nextUserId, email, phone, AdminRole, passwordHash)];
      r := Ok(nextUserId);
      nextUserId := nextUserId + 1;
    }
  }
}
