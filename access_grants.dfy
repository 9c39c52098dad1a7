/** The access-grant ledger: doctors' requests for access to patients, the "live grant"
    predicate that gates every doctor-initiated write, and the read-only queries over the
    ledger (patient details, a doctor's patients, the two request listings). */
module AccessGrants {
  import opened HealthTypes
  import opened Tables
  import opened Sorting

  /** `status = 'approved' AND (expires_at IS NULL OR expires_at > now)`. The comparison
      is strict: a grant expiring exactly now is no longer live. */
  predicate IsLiveGrant(ar: AccessRequest, now: Millis): (b: bool)
    ensures b ==> ar.status == Approved
    ensures b <==> ar.status == Approved && (ar.expiresAt.None? || now < ar.expiresAt.value)
  {
    ar.status == Approved && (ar.expiresAt == None || ar.expiresAt.value > now)
  }

  /** Some request for the (patient, doctor) pair is a live grant: the gate of
      getPatientDetails, addMedicalRecord and createAlert. */
  predicate HasLiveGrant(requests: seq<AccessRequest>, patientId: int, doctorId: int, now: Millis): (b: bool)
    ensures b <==> exists ar :: (ar in requests && ar.patientId == patientId && ar.doctorId == doctorId
      && ar.status == Approved && (ar.expiresAt.None? || now < ar.expiresAt.value))
  {
    exists i :: 0 <= i < |requests| && requests[i].patientId == patientId && requests[i].doctorId == doctorId && IsLiveGrant(requests[i], now)
  }

  /** Some request for the pair is still pending: the duplicate guard of requestAccess. */
  predicate HasPendingRequest(requests: seq<AccessRequest>, patientId: int, doctorId: int): (b: bool)
    ensures b <==> exists ar :: ar in requests && ar.patientId == patientId && ar.doctorId == doctorId && ar.status == Pending
  {
    exists i :: 0 <= i < |requests| && requests[i].patientId == patientId && requests[i].doctorId == doctorId && requests[i].status == Pending
  }

  /** The ledger invariant: at most one pending request per (patient, doctor) pair. */
  ghost predicate AtMostOnePending(requests: seq<AccessRequest>)
  {
    forall i, j ::
      0 <= i < j < |requests| && requests[i].status == Pending && requests[j].status == Pending ==>
        requests[i].patientId != requests[j].patientId || requests[i].doctorId != requests[j].doctorId
  }

  /** The row requestAccess inserts: status from the schema default (pending), the
      reason with `""` read as absent, and a provisional expiry seven days from now. */
  function NewRequest(id: int, patientId: int, doctorId: int, reason: Option<string>, now: Millis): (ar: AccessRequest)
    ensures ar.id == id && ar.patientId == patientId && ar.doctorId == doctorId && ar.requestedAt == now
    ensures ar.status == Pending && ar.respondedAt.None?
    ensures ar.expiresAt == Some(now + 604800000)
    ensures ar.reason.Some? <==> reason.Some? && reason.value != ""
    ensures ar.reason.Some? ==> ar.reason == reason
  {
    AccessRequest(id, patientId, doctorId, Pending, OrNull(reason), now, None, Some(now + AccessWindow))
  }

  /** The row respondAccessRequest leaves: only the status and `responded_at` change. */
  function Respond(ar: AccessRequest, decision: Decision, now: Millis): (r: AccessRequest)
    ensures r.status != Pending && r.status == decision
    ensures r.respondedAt == Some(now)
    ensures r.(status := ar.status, respondedAt := ar.respondedAt) == ar
  {
    ar.(status := decision, respondedAt := Some(now))
  }

  /** Appending a new pending request keeps the invariant exactly when no request for
      the pair is pending yet, which is what requestAccess checks first. */
  lemma {:induction false} AppendPendingPreservesInvariant(requests: seq<AccessRequest>, ar: AccessRequest)
    requires AtMostOnePending(requests)
    requires ar.status == Pending
    requires !HasPendingRequest(requests, ar.patientId, ar.doctorId)
    ensures AtMostOnePending(requests + [ar])
  {
    var rs := requests + [ar];
    forall i, j | 0 <= i < j < |rs| && rs[i].status == Pending && rs[j].status == Pending
      ensures rs[i].patientId != rs[j].patientId || rs[i].doctorId != rs[j].doctorId
    {
      if j == |requests| {
        assert rs[i] == requests[i];
      } else {
        assert rs[i] == requests[i] && rs[j] == requests[j];
      }
    }
  }

  /** Without the duplicate guard the invariant would break: a second pending request
      for a pair that already has one violates it. */
  lemma DuplicatePendingBreaksInvariant(requests: seq<AccessRequest>, ar: AccessRequest)
    requires ar.status == Pending
    requires HasPendingRequest(requests, ar.patientId, ar.doctorId)
    ensures !AtMostOnePending(requests + [ar])
  {
    var i :| 0 <= i < |requests| && requests[i].patientId == ar.patientId && requests[i].doctorId == ar.doctorId && requests[i].status == Pending;
    var rs := requests + [ar];
    assert rs[i] == requests[i] && rs[|requests|] == ar;
  }

  /** Answering a request only ever removes a pending row, so the invariant survives. */
  lemma {:induction false} RespondPreservesInvariant(requests: seq<AccessRequest>, k: nat, decision: Decision, now: Millis)
    requires AtMostOnePending(requests)
    requires k < |requests|
    ensures AtMostOnePending(requests[k := Respond(requests[k], decision, now)])
  {
    var rs := requests[k := Respond(requests[k], decision, now)];
    forall i, j | 0 <= i < j < |rs| && rs[i].status == Pending && rs[j].status == Pending
      ensures rs[i].patientId != rs[j].patientId || rs[i].doctorId != rs[j].doctorId
    {
      assert i != k && j != k;
      assert rs[i] == requests[i] && rs[j] == requests[j];
    }
  }

  /** A grant approved with a future (or no) expiry is live right away; once the clock
      reaches its expiry it stops being live, with no sweep needed. */
  lemma ApprovedGrantLiveUntilExpiry(ar: AccessRequest, respondedAt: Millis, t: Millis)
    requires ar.status == Pending
    ensures ar.expiresAt.None? || t < ar.expiresAt.value ==> IsLiveGrant(Respond(ar, Approved, respondedAt), t)
    ensures ar.expiresAt.Some? && t >= ar.expiresAt.value ==> !IsLiveGrant(Respond(ar, Approved, respondedAt), t)
    ensures !IsLiveGrant(Respond(ar, Denied, respondedAt), t)
  {
  }

  /** Liveness only decays with time: a grant live at a later instant was live earlier. */
  lemma LivenessDecays(requests: seq<AccessRequest>, patientId: int, doctorId: int, t1: Millis, t2: Millis)
    requires t1 <= t2
    requires HasLiveGrant(requests, patientId, doctorId, t2)
    ensures HasLiveGrant(requests, patientId, doctorId, t1)
  {
    var i :| 0 <= i < |requests| && requests[i].patientId == patientId && requests[i].doctorId == doctorId && IsLiveGrant(requests[i], t2);
    assert IsLiveGrant(requests[i], t1);
  }

  /** Pending and denied requests never make a grant live, whatever else the ledger holds. */
  lemma OnlyApprovedRowsGrant(requests: seq<AccessRequest>, patientId: int, doctorId: int, now: Millis)
    requires forall i :: 0 <= i < |requests| ==> requests[i].status != Approved
    ensures !HasLiveGrant(requests, patientId, doctorId, now)
  {
  }

  // ---------------------------------------------------------------------------------
  // getPatientDetails

  datatype PatientDetails = PatientDetails(patient: Patient, hasAccess: bool)

  /** The full patient row, whether or not the doctor holds a live grant, plus whether
      they do. */
  function GetPatientDetails(patients: seq<Patient>, requests: seq<AccessRequest>, patientId: int, doctorId: int, now: Millis): (r: Result<PatientDetails>)
    ensures r.Err? <==> forall p :: p in patients ==> p.id != patientId
    ensures r.Err? ==> r.error == ApiError(NotFound, "Patient not found")
    ensures r.Ok? ==> r.value.patient in patients && r.value.patient.id == patientId
    ensures r.Ok? ==> (r.value.hasAccess <==>
      exists ar :: ar in requests && ar.patientId == patientId && ar.doctorId == doctorId && ar.status == Approved
        && (ar.expiresAt.None? || ar.expiresAt.value > now))
  {
    match PatientById(patients, patientId)
    case None => Err(ApiError(NotFound, "Patient not found"))
    case Some(p) =>
      var has := HasLiveGrant(requests, patientId, doctorId, now);
      assert has ==> exists ar :: ar in requests && ar.patientId == patientId && ar.doctorId == doctorId && IsLiveGrant(ar, now);
      Ok(PatientDetails(p, has))
  }

  // ---------------------------------------------------------------------------------
  // listPatientRecords

  /** A patient row extended with the grant's `responded_at` and `expires_at`. */
  datatype PatientWithAccess = PatientWithAccess(patient: Patient, accessGrantedAt: Option<Millis>, accessExpiresAt: Option<Millis>)

  /** `ORDER BY x DESC` on a nullable column, nulls first as PostgreSQL sorts them. */
  predicate NullsFirstDesc(a: Option<Millis>, b: Option<Millis>)
  {
    a.None? || (b.Some? && a.value >= b.value)
  }

  predicate GrantedLater(a: PatientWithAccess, b: PatientWithAccess)
  {
    NullsFirstDesc(a.accessGrantedAt, b.accessGrantedAt)
  }

  lemma GrantedLaterIsTotalPreorder()
    ensures TotalPreorder(GrantedLater)
  {
  }

  /** Whether one ledger row joins into a doctor's patient list. */
  predicate GrantJoins(patients: seq<Patient>, ar: AccessRequest, doctorId: int, now: Millis)
  {
    ar.doctorId == doctorId && IsLiveGrant(ar, now) && PatientById(patients, ar.patientId).Some?
  }

  /** The joined row for one qualifying ledger row. */
  function GrantRow(patients: seq<Patient>, ar: AccessRequest, doctorId: int, now: Millis): (row: PatientWithAccess)
    requires GrantJoins(patients, ar, doctorId, now)
  {
    PatientWithAccess(PatientById(patients, ar.patientId).value, ar.respondedAt, ar.expiresAt)
  }

  /** One ledger row through the join: the joined row when it qualifies, nothing
      otherwise. */
  function GrantOf(patients: seq<Patient>, doctorId: int, now: Millis): AccessRequest -> Option<PatientWithAccess>
  {
    (ar: AccessRequest) => if GrantJoins(patients, ar, doctorId, now) then Some(GrantRow(patients, ar, doctorId, now)) else None
  }

  /** `patients p JOIN access_requests ar ON p.id = ar.patient_id WHERE ar.doctor_id = d AND
      <live>`, one row per qualifying ledger row, before ordering. */
  function GrantedPatients(patients: seq<Patient>, requests: seq<AccessRequest>, doctorId: int, now: Millis): (rows: seq<PatientWithAccess>)
    ensures |rows| <= |requests|
    ensures forall x :: x in rows <==> exists ar :: ar in requests && GrantJoins(patients, ar, doctorId, now) && x == GrantRow(patients, ar, doctorId, now)
    ensures forall x :: multiset(rows)[x] == |GrantPositions(patients, requests, doctorId, now, x)|
  {
    var rows := FilterMap(requests, GrantOf(patients, doctorId, now));
    assert forall x :: multiset(rows)[x] == |GrantPositions(patients, requests, doctorId, now, x)| by {
      forall x ensures multiset(rows)[x] == |GrantPositions(patients, requests, doctorId, now, x)| {
        GrantMultiplicity(patients, requests, doctorId, now, x);
      }
    }
    rows
  }

  /** The ledger positions whose row joins into `x`. */
  ghost function GrantPositions(patients: seq<Patient>, requests: seq<AccessRequest>, doctorId: int, now: Millis, x: PatientWithAccess): set<int>
  {
    set i | 0 <= i < |requests| && GrantJoins(patients, requests[i], doctorId, now) && GrantRow(patients, requests[i], doctorId, now) == x
  }

  lemma GrantMultiplicity(patients: seq<Patient>, requests: seq<AccessRequest>, doctorId: int, now: Millis, x: PatientWithAccess)
    ensures multiset(FilterMap(requests, GrantOf(patients, doctorId, now)))[x] == |GrantPositions(patients, requests, doctorId, now, x)|
  {
    var f := GrantOf(patients, doctorId, now);
    FilterMapMultiplicity(requests, f, x);
    var viaF := PositionsOf(requests, f, x);
    forall i ensures i in viaF <==> i in GrantPositions(patients, requests, doctorId, now, x) {
      if 0 <= i < |requests| {
        var ar := requests[i];
        assert f(ar) == if GrantJoins(patients, ar, doctorId, now) then Some(GrantRow(patients, ar, doctorId, now)) else None;
      }
    }
    assert viaF == GrantPositions(patients, requests, doctorId, now, x);
  }

  /** The patients who currently grant the doctor access, latest grant first. */
  function ListPatientRecords(patients: seq<Patient>, requests: seq<AccessRequest>, doctorId: int, now: Millis): (r: seq<PatientWithAccess>)
    ensures multiset(r) == multiset(GrantedPatients(patients, requests, doctorId, now))
  {
    SortBy(GrantedPatients(patients, requests, doctorId, now), GrantedLater)
  }

  /** Every listed patient has a live grant to the doctor, the extra columns are that
      grant's response time and expiry, every live grant with an existing patient is
      listed, and the list is ordered by grant time, latest first. */
  lemma ListPatientRecordsCorrect(patients: seq<Patient>, requests: seq<AccessRequest>, doctorId: int, now: Millis)
    ensures var r := ListPatientRecords(patients, requests, doctorId, now);
      && SortedBy(r, GrantedLater)
      && forall x :: x in r <==>
           (exists ar :: ar in requests && ar.doctorId == doctorId && IsLiveGrant(ar, now)
              && PatientById(patients, ar.patientId) == Some(x.patient)
              && x.accessGrantedAt == ar.respondedAt && x.accessExpiresAt == ar.expiresAt)
  {
    var rows := GrantedPatients(patients, requests, doctorId, now);
    GrantedLaterIsTotalPreorder();
    SortByIsSorted(rows, GrantedLater);
    var r := ListPatientRecords(patients, requests, doctorId, now);
    forall x ensures x in r <==> x in rows {
      assert x in r <==> x in multiset(r);
    }
    forall x ensures x in rows <==>
      (exists ar :: ar in requests && ar.doctorId == doctorId && IsLiveGrant(ar, now)
         && PatientById(patients, ar.patientId) == Some(x.patient)
         && x.accessGrantedAt == ar.respondedAt && x.accessExpiresAt == ar.expiresAt)
    {
      GrantedRowFields(patients, requests, doctorId, now, x);
    }
  }

  /** A joined row is a live grant's patient with that grant's two timestamps. */
  lemma GrantedRowFields(patients: seq<Patient>, requests: seq<AccessRequest>, doctorId: int, now: Millis, x: PatientWithAccess)
    ensures x in GrantedPatients(patients, requests, doctorId, now) <==>
      (exists ar :: ar in requests && ar.doctorId == doctorId && IsLiveGrant(ar, now)
         && PatientById(patients, ar.patientId) == Some(x.patient)
         && x.accessGrantedAt == ar.respondedAt && x.accessExpiresAt == ar.expiresAt)
  {
  }

  /** Two live grants from the same doctor list the patient twice: there is no DISTINCT. */
  lemma NoDistinctOnPatients(p: Patient, g1: AccessRequest, g2: AccessRequest, now: Millis)
    requires g1.patientId == p.id && g2.patientId == p.id && g1.doctorId == g2.doctorId
    requires IsLiveGrant(g1, now) && IsLiveGrant(g2, now)
    ensures |ListPatientRecords([p], [g1, g2], g1.doctorId, now)| == 2
  {
    assert [g1, g2][1..] == [g2];
    assert PatientById([p], p.id) == Some(p);
    assert GrantJoins([p], g1, g1.doctorId, now) && GrantJoins([p], g2, g1.doctorId, now);
    assert GrantedPatients([p], [g2], g1.doctorId, now) == [GrantRow([p], g2, g1.doctorId, now)];
    assert |GrantedPatients([p], [g1, g2], g1.doctorId, now)| == 2;
  }

  // ---------------------------------------------------------------------------------
  // listAccessRequests and listAccessRequestsByDoctor

  /** A ledger row decorated with both parties' display names. */
  datatype AccessRequestWithNames = AccessRequestWithNames(request: AccessRequest, doctorName: string, patientName: string)

  /** The inner joins on doctors and patients: a row whose doctor or patient is missing
      produces nothing. */
  function WithNames(doctors: seq<Doctor>, patients: seq<Patient>, ar: AccessRequest): (r: Option<AccessRequestWithNames>)
    ensures r.Some? <==> DoctorById(doctors, ar.doctorId).Some? && PatientById(patients, ar.patientId).Some?
    ensures r.Some? ==> (r.value.request == ar
      && r.value.doctorName == FullName(DoctorById(doctors, ar.doctorId).value.firstName, DoctorById(doctors, ar.doctorId).value.lastName)
      && r.value.patientName == FullName(PatientById(patients, ar.patientId).value.firstName, PatientById(patients, ar.patientId).value.lastName))
  {
    match (DoctorById(doctors, ar.doctorId), PatientById(patients, ar.patientId))
    case (Some(d), Some(p)) => Some(AccessRequestWithNames(ar, FullName(d.firstName, d.lastName), FullName(p.firstName, p.lastName)))
    case _ => None
  }

  /** The requests whose `side` column equals `id`, joined with names, in ledger order. */
  function RequestsJoined(doctors: seq<Doctor>, patients: seq<Patient>, requests: seq<AccessRequest>, byDoctor: bool, id: int): (rows: seq<AccessRequestWithNames>)
    ensures |rows| <= |requests|
    ensures forall x :: x in rows ==> x.request in requests && (if byDoctor then x.request.doctorId else x.request.patientId) == id
    ensures forall x :: x in rows ==> WithNames(doctors, patients, x.request) == Some(x)
    ensures forall ar :: ar in requests && (if byDoctor then ar.doctorId else ar.patientId) == id && WithNames(doctors, patients, ar).Some? ==>
      WithNames(doctors, patients, ar).value in rows
  {
    if requests == [] then []
    else
      var rest := RequestsJoined(doctors, patients, requests[1..], byDoctor, id);
      assert forall ar :: ar in requests <==> ar == requests[0] || ar in requests[1..];
      var ar := requests[0];
      if (if byDoctor then ar.doctorId else ar.patientId) == id && WithNames(doctors, patients, ar).Some? then
        [WithNames(doctors, patients, ar).value] + rest
      else rest
  }

  predicate RequestedLater(a: AccessRequestWithNames, b: AccessRequestWithNames)
  {
    a.request.requestedAt >= b.request.requestedAt
  }

  lemma RequestedLaterIsTotalPreorder()
    ensures TotalPreorder(RequestedLater)
  {
  }

  /** A patient's requests, in every status (expired grants included), newest first. */
  function ListAccessRequests(doctors: seq<Doctor>, patients: seq<Patient>, requests: seq<AccessRequest>, patientId: int): (r: seq<AccessRequestWithNames>)
    ensures multiset(r) == multiset(RequestsJoined(doctors, patients, requests, false, patientId))
  {
    SortBy(RequestsJoined(doctors, patients, requests, false, patientId), RequestedLater)
  }

  /** A doctor's requests, in every status, newest first. */
  function ListAccessRequestsByDoctor(doctors: seq<Doctor>, patients: seq<Patient>, requests: seq<AccessRequest>, doctorId: int): (r: seq<AccessRequestWithNames>)
    ensures multiset(r) == multiset(RequestsJoined(doctors, patients, requests, true, doctorId))
  {
    SortBy(RequestsJoined(doctors, patients, requests, true, doctorId), RequestedLater)
  }

  /** Shared by both listings: every listed row is a request for `id` on the chosen side. */
  lemma RequestListingSound(doctors: seq<Doctor>, patients: seq<Patient>, requests: seq<AccessRequest>, byDoctor: bool, id: int)
    ensures forall x :: x in SortBy(RequestsJoined(doctors, patients, requests, byDoctor, id), RequestedLater) ==>
      x.request in requests && (if byDoctor then x.request.doctorId else x.request.patientId) == id
  {
    var rows := RequestsJoined(doctors, patients, requests, byDoctor, id);
    var r := SortBy(rows, RequestedLater);
    forall x | x in r ensures x in rows {
      assert x in multiset(r);
    }
  }

  /** Shared by both listings: a request for `id` is listed exactly when its doctor and
      patient rows both exist. */
  lemma RequestListingComplete(doctors: seq<Doctor>, patients: seq<Patient>, requests: seq<AccessRequest>, byDoctor: bool, id: int, ar: AccessRequest)
    requires ar in requests && (if byDoctor then ar.doctorId else ar.patientId) == id
    ensures (exists x :: x in SortBy(RequestsJoined(doctors, patients, requests, byDoctor, id), RequestedLater) && x.request == ar)
      <==> DoctorById(doctors, ar.doctorId).Some? && PatientById(patients, ar.patientId).Some?
  {
    var rows := RequestsJoined(doctors, patients, requests, byDoctor, id);
    var r := SortBy(rows, RequestedLater);
    var w := WithNames(doctors, patients, ar);
    if w.Some? {
      assert w.value in multiset(rows);
      assert w.value in r;
    } else {
      forall x | x in r ensures x.request != ar {
        assert x in multiset(r);
        assert WithNames(doctors, patients, x.request) == Some(x);
      }
    }
  }

  lemma RequestListingSorted(doctors: seq<Doctor>, patients: seq<Patient>, requests: seq<AccessRequest>, byDoctor: bool, id: int)
    ensures SortedBy(SortBy(RequestsJoined(doctors, patients, requests, byDoctor, id), RequestedLater), RequestedLater)
  {
    RequestedLaterIsTotalPreorder();
    SortByIsSorted(RequestsJoined(doctors, patients, requests, byDoctor, id), RequestedLater);
  }

  /** The patient-side listing holds exactly the patient's requests whose doctor and
      patient rows exist, in every status, newest request first. */
  lemma ListAccessRequestsCorrect(doctors: seq<Doctor>, patients: seq<Patient>, requests: seq<AccessRequest>, patientId: int)
    ensures var r := ListAccessRequests(doctors, patients, requests, patientId);
      && SortedBy(r, RequestedLater)
      && (forall x :: x in r ==> x.request in requests && x.request.patientId == patientId)
      && (forall ar :: ar in requests && ar.patientId == patientId ==>
            ((exists x :: x in r && x.request == ar) <==> DoctorById(doctors, ar.doctorId).Some? && PatientById(patients, ar.patientId).Some?))
  {
    RequestListingSorted(doctors, patients, requests, false, patientId);
    RequestListingSound(doctors, patients, requests, false, patientId);
    forall ar | ar in requests && ar.patientId == patientId {
      RequestListingComplete(doctors, patients, requests, false, patientId, ar);
    }
  }

  /** The doctor-side listing: the same guarantees keyed by the doctor. */
  lemma ListAccessRequestsByDoctorCorrect(doctors: seq<Doctor>, patients: seq<Patient>, requests: seq<AccessRequest>, doctorId: int)
    ensures var r := ListAccessRequestsByDoctor(doctors, patients, requests, doctorId);
      && SortedBy(r, RequestedLater)
      && (forall x :: x in r ==> x.request in requests && x.request.doctorId == doctorId)
      && (forall ar :: ar in requests && ar.doctorId == doctorId ==>
            ((exists x :: x in r && x.request == ar) <==> DoctorById(doctors, ar.doctorId).Some? && PatientById(patients, ar.patientId).Some?))
  {
    RequestListingSorted(doctors, patients, requests, true, doctorId);
    RequestListingSound(doctors, patients, requests, true, doctorId);
    forall ar | ar in requests && ar.doctorId == doctorId {
      RequestListingComplete(doctors, patients, requests, true, doctorId, ar);
    }
  }
}
