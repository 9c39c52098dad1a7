/** The alert ledger: the rows createAlert and updateAlertStatus write, and the admin
    listing ordered by severity rank and then newest first. */
module Alerts {
  import opened HealthTypes
  import opened Tables
  import opened Sorting

  /** The inserted row: status from the schema default (open), both timestamps now. */
  function NewAlert(id: int, doctorId: int, patientId: int, severity: Severity, title: string, description: string, now: Millis): (a: Alert)
    ensures a.id == id && a.doctorId == doctorId && a.patientId == patientId
    ensures a.severity == severity && a.title == title && a.description == description
    ensures a.status == Open && a.adminNotes.None? && a.createdAt == now && a.updatedAt == now
  {
    Alert(id, doctorId, patientId, severity, title, description, Open, None, now, now)
  }

  /** updateAlertStatus's UPDATE: any status may follow any status; the notes are
      overwritten (absent or `""` becomes null) and `updated_at` is stamped. */
  function WithStatus(a: Alert, status: AlertStatus, adminNotes: Option<string>, now: Millis): (a': Alert)
    ensures a'.status == status && a'.updatedAt == now
    ensures a'.adminNotes.Some? <==> adminNotes.Some? && adminNotes.value != ""
    ensures a'.adminNotes.Some? ==> a'.adminNotes == adminNotes
    ensures a'.(status := a.status, adminNotes := a.adminNotes, updatedAt := a.updatedAt) == a
  {
    a.(status := status, adminNotes := OrNull(adminNotes), updatedAt := now)
  }

  /** Repeating an update changes nothing but `updated_at`, and every status is reachable
      from every other: there is no transition check. */
  lemma StatusUpdateIdempotent(a: Alert, s: AlertStatus, notes: Option<string>, t1: Millis, t2: Millis)
    ensures WithStatus(WithStatus(a, s, notes, t1), s, notes, t2) == WithStatus(a, s, notes, t2)
    ensures WithStatus(WithStatus(a, Resolved, notes, t1), Open, notes, t2).status == Open
  {
  }

  /** `CASE a.severity WHEN 'critical' THEN 1 ... WHEN 'low' THEN 4 END`. */
  function SeverityRank(s: Severity): (rank: int)
    ensures 1 <= rank <= 4
    ensures rank == 1 <==> s == Critical
    ensures rank == 2 <==> s == High
    ensures rank == 3 <==> s == Medium
    ensures rank == 4 <==> s == Low
  {
    match s
    case Critical => 1
    case High => 2
    case Medium => 3
    case Low => 4
  }

  lemma SeverityRankInjective(s: Severity, t: Severity)
    ensures SeverityRank(s) == SeverityRank(t) ==> s == t
  {
  }

  /** An alert with both parties' display names. */
  datatype AlertWithNames = AlertWithNames(alert: Alert, doctorName: string, patientName: string)

  /** The inner joins: alerts whose doctor or patient row is missing are dropped. No
      status filter applies. */
  function JoinedAlerts(doctors: seq<Doctor>, patients: seq<Patient>, alerts: seq<Alert>): (rows: seq<AlertWithNames>)
    ensures |rows| <= |alerts|
    ensures forall x :: x in rows ==> x.alert in alerts && Named(doctors, patients, x.alert) == Some(x)
    ensures forall a :: a in alerts && Named(doctors, patients, a).Some? ==> Named(doctors, patients, a).value in rows
  {
    if alerts == [] then []
    else
      var rest := JoinedAlerts(doctors, patients, alerts[1..]);
      assert forall a :: a in alerts <==> a == alerts[0] || a in alerts[1..];
      match Named(doctors, patients, alerts[0])
      case Some(x) => [x] + rest
      case None => rest
  }

  function Named(doctors: seq<Doctor>, patients: seq<Patient>, a: Alert): (r: Option<AlertWithNames>)
    ensures r.Some? <==> DoctorById(doctors, a.doctorId).Some? && PatientById(patients, a.patientId).Some?
    ensures r.Some? ==> (r.value.alert == a
      && r.value.doctorName == FullName(DoctorById(doctors, a.doctorId).value.firstName, DoctorById(doctors, a.doctorId).value.lastName)
      && r.value.patientName == FullName(PatientById(patients, a.patientId).value.firstName, PatientById(patients, a.patientId).value.lastName))
  {
    match (DoctorById(doctors, a.doctorId), PatientById(patients, a.patientId))
    case (Some(d), Some(p)) => Some(AlertWithNames(a, FullName(d.firstName, d.lastName), FullName(p.firstName, p.lastName)))
    case _ => None
  }

  /** The admin ORDER BY: lower severity rank first, then newer first. */
  predicate TriageBefore(a: AlertWithNames, b: AlertWithNames)
  {
    SeverityRank(a.alert.severity) < SeverityRank(b.alert.severity)
    || (SeverityRank(a.alert.severity) == SeverityRank(b.alert.severity) && a.alert.createdAt >= b.alert.createdAt)
  }

  lemma TriageBeforeIsTotalPreorder()
    ensures TotalPreorder(TriageBefore)
  {
  }

  function ListAlerts(doctors: seq<Doctor>, patients: seq<Patient>, alerts: seq<Alert>): (r: seq<AlertWithNames>)
    ensures multiset(r) == multiset(JoinedAlerts(doctors, patients, alerts))
  {
    SortBy(JoinedAlerts(doctors, patients, alerts), TriageBefore)
  }

  /** The listing is every alert whose doctor and patient exist, in any status, each once
      per row; severities come critical, high, medium, low; within one severity newer
      alerts come first. */
  lemma {:induction false} ListAlertsCorrect(doctors: seq<Doctor>, patients: seq<Patient>, alerts: seq<Alert>)
    ensures var out := ListAlerts(doctors, patients, alerts);
      && (forall i, j :: 0 <= i < j < |out| ==> SeverityRank(out[i].alert.severity) <= SeverityRank(out[j].alert.severity))
      && (forall i, j :: 0 <= i < j < |out| && out[i].alert.severity == out[j].alert.severity ==>
            out[i].alert.createdAt >= out[j].alert.createdAt)
      && (forall x :: x in out ==> x.alert in alerts)
      && (forall a :: a in alerts ==> ((exists x :: x in out && x.alert == a) <==>
            DoctorById(doctors, a.doctorId).Some? && PatientById(patients, a.patientId).Some?))
  {
    var rows := JoinedAlerts(doctors, patients, alerts);
    var out := ListAlerts(doctors, patients, alerts);
    TriageBeforeIsTotalPreorder();
    SortByIsSorted(rows, TriageBefore);
    TriageOrder(out);
    forall x ensures x in out <==> x in rows {
      assert x in out <==> x in multiset(out);
    }
    forall a | a in alerts
      ensures (exists x :: x in out && x.alert == a) <==> Named(doctors, patients, a).Some?
    {
      if Named(doctors, patients, a).Some? {
        assert Named(doctors, patients, a).value in out;
      }
    }
  }

  /** A list sorted by the triage order has ranks non-decreasing and, within a
      severity, creation times non-increasing. */
  lemma TriageOrder(out: seq<AlertWithNames>)
    requires SortedBy(out, TriageBefore)
    ensures forall i, j :: 0 <= i < j < |out| ==> SeverityRank(out[i].alert.severity) <= SeverityRank(out[j].alert.severity)
    ensures forall i, j :: 0 <= i < j < |out| && out[i].alert.severity == out[j].alert.severity ==>
      out[i].alert.createdAt >= out[j].alert.createdAt
  {
  }

  /** A critical alert is listed ahead of every medium or low one, whenever each was made. */
  lemma CriticalBeforeMediumAndLow(doctors: seq<Doctor>, patients: seq<Patient>, alerts: seq<Alert>, i: nat, j: nat)
    requires var out := ListAlerts(doctors, patients, alerts);
      i < |out| && j < |out| && out[i].alert.severity == Critical && out[j].alert.severity in {Medium, Low}
    ensures i < j
  {
    var out := ListAlerts(doctors, patients, alerts);
    TriageBeforeIsTotalPreorder();
    SortByIsSorted(JoinedAlerts(doctors, patients, alerts), TriageBefore);
    TriageOrder(out);
  }

  /** A high alert is listed ahead of every medium or low one, whenever each was made. */
  lemma HighBeforeMediumAndLow(doctors: seq<Doctor>, patients: seq<Patient>, alerts: seq<Alert>, i: nat, j: nat)
    requires var out := ListAlerts(doctors, patients, alerts);
      i < |out| && j < |out| && out[i].alert.severity == High && out[j].alert.severity in {Medium, Low}
    ensures i < j
  {
    var out := ListAlerts(doctors, patients, alerts);
    TriageBeforeIsTotalPreorder();
    SortByIsSorted(JoinedAlerts(doctors, patients, alerts), TriageBefore);
    TriageOrder(out);
  }
}
