/** Rows of the health portal's relational tables, the enumerations their columns range
    over, and the error taxonomy every request handler reports through. */
module HealthTypes {

  datatype Option<+T> = None | Some(value: T)

  /** Milliseconds since the epoch; `Date` columns and `Date.now()` alike. */
  type Millis = int

  /** Seven days in milliseconds: the provisional expiry of a new access request. */
  const AccessWindow: Millis := 7 * 24 * 60 * 60 * 1000

  datatype Role = PatientRole | DoctorRole | AdminRole

  datatype RequestStatus = Pending | Approved | Denied

  /** The only statuses a patient may answer a request with. */
  type Decision = s: RequestStatus | s != Pending witness Approved

  datatype Severity = Low | Medium | High | Critical

  datatype AlertStatus = Open | InProgress | Resolved

  datatype RecordType = Prescription | LabResult | Diagnosis | Treatment | Vaccination | Other

  datatype User = User(
    id: int,
    email: string,
    phone: Option<string>,
    role: Role,
    passwordHash: string)

  datatype Patient = Patient(
    id: int,
    userId: int,
    medicalId: string,
    qrCode: string,
    firstName: string,
    lastName: string,
    dateOfBirth: Option<string>,
    gender: Option<string>,
    bloodType: Option<string>,
    emergencyContactName: Option<string>,
    emergencyContactPhone: Option<string>,
    address: Option<string>,
    allergies: Option<string>,
    medicalConditions: Option<string>)

  datatype Doctor = Doctor(
    id: int,
    userId: int,
    firstName: string,
    lastName: string,
    licenseNumber: string,
    specialization: Option<string>,
    hospitalAffiliation: Option<string>,
    phone: Option<string>)

  datatype AccessRequest = AccessRequest(
    id: int,
    patientId: int,
    doctorId: int,
    status: RequestStatus,
    reason: Option<string>,
    requestedAt: Millis,
    respondedAt: Option<Millis>,
    expiresAt: Option<Millis>)

  datatype MedicalRecord = MedicalRecord(
    id: int,
    patientId: int,
    doctorId: Option<int>,
    title: string,
    description: Option<string>,
    recordType: RecordType,
    fileUrl: Option<string>,
    fileName: Option<string>,
    fileSize: Option<int>,
    patientSummary: Option<string>,
    doctorSummary: Option<string>,
    summaryGeneratedAt: Option<Millis>,
    createdAt: Millis,
    updatedAt: Millis)

  datatype Alert = Alert(
    id: int,
    doctorId: int,
    patientId: int,
    severity: Severity,
    title: string,
    description: string,
    status: AlertStatus,
    adminNotes: Option<string>,
    createdAt: Millis,
    updatedAt: Millis)

  datatype ErrorCode = NotFound | AlreadyExists | PermissionDenied | FailedPrecondition | Unauthenticated | Internal

  /** An `APIError` thrown by a handler: its code and its message. */
  datatype ApiError = ApiError(code: ErrorCode, message: string)

  datatype Result<+T> = Ok(value: T) | Err(error: ApiError)

  /** JavaScript's `s || null` on an optional string: absent and `""` both become null. */
  function OrNull(s: Option<string>): (r: Option<string>)
    ensures r.Some? <==> s.Some? && s.value != ""
    ensures r.Some? ==> r == s
  {
    if s.Some? && s.value != "" then s else None
  }

  /** JavaScript's `n || null` on an optional number: absent and `0` both become null. */
  function NonZero(n: Option<int>): (r: Option<int>)
    ensures r.Some? <==> n.Some? && n.value != 0
    ensures r.Some? ==> r == n
  {
    if n.Some? && n.value != 0 then n else None
  }

  /** `a || ' ' || b` in SQL: a display name built from first and last name. */
  function FullName(first: string, last: string): (r: string)
    ensures |r| == |first| + 1 + |last|
    ensures r[..|first|] == first && r[|first|] == ' ' && r[|first| + 1..] == last
  {
    first + " " + last
  }
}
