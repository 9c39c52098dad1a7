/** Sequences of handler calls on one database, as a client would make them, and what the
    handlers' contracts guarantee about the later calls. */
module Scenarios {
  import opened HealthTypes
  import opened Tables
  import opened AccessGrants
  import opened MedicalRecords
  import opened Identity
  import opened Store

  /** Answering a request rewrites one row and keeps every id, so the same id still finds
      the same row afterwards. */
  lemma {:induction false} RespondKeepsIndex(requests: seq<AccessRequest>, k: nat, decision: Decision, now: Millis)
    requires k < |requests|
    ensures RequestIndex(requests[k := Respond(requests[k], decision, now)], requests[k].id) == RequestIndex(requests, requests[k].id)
  {
    var id := requests[k].id;
    var rs := requests[k := Respond(requests[k], decision, now)];
    assert forall i :: 0 <= i < |rs| ==> rs[i].id == requests[i].id;
    match RequestIndex(requests, id)
    case None =>
    case Some(j) =>
      assert rs[j].id == id;
      assert forall i :: 0 <= i < j ==> rs[i].id != id;
  }

  /** A row appended with an id above all others is the one its id finds. */
  lemma {:induction false} NewestRowIsFound(requests: seq<AccessRequest>, ar: AccessRequest)
    requires forall i :: 0 <= i < |requests| ==> requests[i].id < ar.id
    ensures RequestIndex(requests + [ar], ar.id) == Some(|requests|)
  {
    var rs := requests + [ar];
    assert rs[|requests|].id == ar.id;
    assert forall i :: 0 <= i < |requests| ==> rs[i].id != ar.id;
  }

  /** Responding twice to the same request fails the second time, whatever either answer is. */
  method AnswerTwice(db: HealthStore, requestId: int, first: Decision, second: Decision, t1: Millis, t2: Millis)
    returns (r1: Result<bool>, r2: Result<bool>)
    requires db.Valid()
    modifies db
    ensures db.Valid()
    ensures r1.Ok? ==> r2 == Err(AlreadyAnswered)
    ensures r1.Err? ==> r2 == r1
  {
    ghost var before := db.requests;
    r1 := db.RespondAccessRequest(requestId, first, t1);
    if r1.Ok? {
      var k := RequestIndex(before, requestId).value;
      RespondKeepsIndex(before, k, first, t1);
    }
    r2 := db.RespondAccessRequest(requestId, second, t2);
  }

  /** A request answered with approval is a live grant until seven days after it was made. */
  lemma ApprovedRequestIsLive(requests: seq<AccessRequest>, k: nat, id: int, patientId: int, doctorId: int, reason: Option<string>,
                              t: Millis, answeredAt: Millis, later: Millis)
    requires k < |requests| && requests[k] == Respond(NewRequest(id, patientId, doctorId, reason, t), Approved, answeredAt)
    requires later < t + AccessWindow
    ensures HasLiveGrant(requests, patientId, doctorId, later)
  {
    assert IsLiveGrant(requests[k], later);
  }

  /** A doctor who requests access and is approved may then add a record for the patient
      at any time before the seven days from the request run out, and the patient's
      listing shows it. */
  method GrantThenWrite(db: HealthStore, patientId: int, doctorId: int, req: AddRecordRequest, t: Millis, later: Millis)
    returns (asked: Result<int>, answered: Result<bool>, added: Result<int>)
    requires db.Valid()
    requires req.patientId == patientId && req.doctorId == Some(doctorId)
    requires later < t + AccessWindow
    modifies db
    ensures db.Valid()
    ensures asked.Ok? ==> answered == Ok(true) && added.Ok?
    ensures added.Ok? ==> exists x :: x in ListMedicalRecords(db.doctors, db.records, patientId) && x.record.id == added.value
  {
    ghost var initial := db.requests;
    asked := db.RequestAccess(patientId, doctorId, None, t);
    if asked.Err? {
      return asked, Err(asked.error), Err(asked.error);
    }
    ghost var k := |initial|;
    ghost var pending := NewRequest(asked.value, patientId, doctorId, None, t);
    assert db.requests == initial + [pending];
    NewestRowIsFound(initial, pending);
    answered := db.RespondAccessRequest(asked.value, Approved, t);
    assert db.requests[k] == Respond(pending, Approved, t);
    ApprovedRequestIsLive(db.requests, k, asked.value, patientId, doctorId, None, t, t, later);
    ghost var recordsBefore := db.records;
    added := db.AddMedicalRecord(req, later);
    AddedRecordIsListed(db.doctors, recordsBefore, added.value, req, later);
  }

  /** A second sign-up with the same email fails and leaves the users table as the first
      left it. */
  method RegisterTwice(db: HealthStore, a: PatientSignup, b: DoctorSignup, h1: string, h2: string, nowMillis: nat, random: seq<byte>)
    returns (r1: Result<PatientRegistered>, r2: Result<DoctorRegistered>)
    requires db.Valid() && |random| == 4 && a.email == b.email
    modifies db
    ensures db.Valid()
    ensures r2 == Err(EmailTaken)
  {
    r1 := db.RegisterPatient(a, h1, nowMillis, random);
    r2 := db.RegisterDoctor(b, h2);
  }
}
