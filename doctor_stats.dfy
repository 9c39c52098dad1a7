/** getDoctorStats: three counts over the ledger, the record store and the alert ledger,
    and a recent-activity feed merged from three capped, date-ordered lists. */
module DoctorStats {
  import opened HealthTypes
  import opened Tables
  import opened Sorting
  import opened AccessGrants
  import opened MedicalRecords

  datatype ActivityKind = RecordAdded | AlertRaised | AccessGranted

  datatype Activity = Activity(kind: ActivityKind, description: string, date: Option<Millis>, patientName: string)

  datatype DoctorStats = DoctorStats(
    totalPatients: nat,
    totalRecordsAdded: nat,
    totalAlertsRaised: nat,
    recentActivity: seq<Activity>)

  /** The per-source caps: `LIMIT 5` on records, `LIMIT 3` on alerts and on grants, and
      `slice(0, 10)` on the merged feed. */
  const RecordLimit: nat := 5
  const AlertLimit: nat := 3
  const AccessLimit: nat := 3
  const FeedLimit: nat := 10

  function PatientName(patients: seq<Patient>, patientId: int): Option<string>
  {
    match PatientById(patients, patientId)
    case None => None
    case Some(p) => Some(FullName(p.firstName, p.lastName))
  }

  /** One record joined with its patient, when the doctor authored it: the `record_added`
      entry with the title, the creation time and the patient's full name. */
  function RecordActivity(patients: seq<Patient>, doctorId: int, r: MedicalRecord): (a: Option<Activity>)
    ensures a.Some? <==> r.doctorId == Some(doctorId) && PatientById(patients, r.patientId).Some?
    ensures a.Some? ==> var p := PatientById(patients, r.patientId).value;
      a.value == Activity(RecordAdded, r.title, Some(r.createdAt), FullName(p.firstName, p.lastName))
  {
    if r.doctorId == Some(doctorId) && PatientName(patients, r.patientId).Some? then
      Some(Activity(RecordAdded, r.title, Some(r.createdAt), PatientName(patients, r.patientId).value))
    else None
  }

  /** One alert joined with its patient, when the doctor raised it. */
  function AlertActivity(patients: seq<Patient>, doctorId: int, a: Alert): (x: Option<Activity>)
    ensures x.Some? <==> a.doctorId == doctorId && PatientById(patients, a.patientId).Some?
    ensures x.Some? ==> var p := PatientById(patients, a.patientId).value;
      x.value == Activity(AlertRaised, a.title, Some(a.createdAt), FullName(p.firstName, p.lastName))
  {
    if a.doctorId == doctorId && PatientName(patients, a.patientId).Some? then
      Some(Activity(AlertRaised, a.title, Some(a.createdAt), PatientName(patients, a.patientId).value))
    else None
  }

  /** Approved grants of the doctor, with no expiry filter, dated by the response. */
  function GrantActivity(patients: seq<Patient>, doctorId: int, ar: AccessRequest): (x: Option<Activity>)
    ensures x.Some? <==> ar.doctorId == doctorId && ar.status == Approved && PatientById(patients, ar.patientId).Some?
    ensures x.Some? ==> var p := PatientById(patients, ar.patientId).value;
      x.value == Activity(AccessGranted, "Access granted", ar.respondedAt, FullName(p.firstName, p.lastName))
  {
    if ar.doctorId == doctorId && ar.status == Approved && PatientName(patients, ar.patientId).Some? then
      Some(Activity(AccessGranted, "Access granted", ar.respondedAt, PatientName(patients, ar.patientId).value))
    else None
  }

  /** `ORDER BY <date> DESC` in SQL, nulls first. */
  predicate SqlNewer(a: Activity, b: Activity)
  {
    NullsFirstDesc(a.date, b.date)
  }

  lemma SqlNewerIsTotalPreorder()
    ensures TotalPreorder(SqlNewer)
  {
  }

  /** `new Date(d).getTime()`: a null date reads as the epoch. */
  function JsTime(d: Option<Millis>): Millis
  {
    if d.None? then 0 else d.value
  }

  /** The feed comparator `(a, b) => time(b) - time(a)`: later dates first. */
  predicate JsNewer(a: Activity, b: Activity)
  {
    JsTime(a.date) >= JsTime(b.date)
  }

  /** The rows each of the three activity queries selects, before ORDER BY and LIMIT. */
  function RecordCandidates(patients: seq<Patient>, records: seq<MedicalRecord>, doctorId: int): seq<Activity>
  {
    FilterMap(records, r => RecordActivity(patients, doctorId, r))
  }

  function AlertCandidates(patients: seq<Patient>, alerts: seq<Alert>, doctorId: int): seq<Activity>
  {
    FilterMap(alerts, a => AlertActivity(patients, doctorId, a))
  }

  function AccessCandidates(patients: seq<Patient>, requests: seq<AccessRequest>, doctorId: int): seq<Activity>
  {
    FilterMap(requests, ar => GrantActivity(patients, doctorId, ar))
  }

  /** The doctor's five newest records: five of the candidates (all when there are
      fewer), newest first, none older than a candidate left out. */
  function RecentRecords(patients: seq<Patient>, records: seq<MedicalRecord>, doctorId: int): (r: seq<Activity>)
    ensures var c := RecordCandidates(patients, records, doctorId);
      && |r| == (if |c| <= RecordLimit then |c| else RecordLimit)
      && multiset(r) <= multiset(c)
      && SortedBy(r, SqlNewer)
      && (forall x, y :: x in r && y in multiset(c) - multiset(r) ==> SqlNewer(x, y))
    ensures forall x :: x in r ==> x.kind == RecordAdded
  {
    var rows := RecordCandidates(patients, records, doctorId);
    SqlNewerIsTotalPreorder();
    TopOfSortBy(rows, RecordLimit, SqlNewer);
    KindSurvives(rows, RecordLimit, RecordAdded);
    Take(SortBy(rows, SqlNewer), RecordLimit)
  }

  /** The doctor's three newest alerts, in the same sense. */
  function RecentAlerts(patients: seq<Patient>, alerts: seq<Alert>, doctorId: int): (r: seq<Activity>)
    ensures var c := AlertCandidates(patients, alerts, doctorId);
      && |r| == (if |c| <= AlertLimit then |c| else AlertLimit)
      && multiset(r) <= multiset(c)
      && SortedBy(r, SqlNewer)
      && (forall x, y :: x in r && y in multiset(c) - multiset(r) ==> SqlNewer(x, y))
    ensures forall x :: x in r ==> x.kind == AlertRaised
  {
    var rows := AlertCandidates(patients, alerts, doctorId);
    SqlNewerIsTotalPreorder();
    TopOfSortBy(rows, AlertLimit, SqlNewer);
    KindSurvives(rows, AlertLimit, AlertRaised);
    Take(SortBy(rows, SqlNewer), AlertLimit)
  }

  /** The doctor's three most recently approved grants, in the same sense. */
  function RecentAccess(patients: seq<Patient>, requests: seq<AccessRequest>, doctorId: int): (r: seq<Activity>)
    ensures var c := AccessCandidates(patients, requests, doctorId);
      && |r| == (if |c| <= AccessLimit then |c| else AccessLimit)
      && multiset(r) <= multiset(c)
      && SortedBy(r, SqlNewer)
      && (forall x, y :: x in r && y in multiset(c) - multiset(r) ==> SqlNewer(x, y))
    ensures forall x :: x in r ==> x.kind == AccessGranted
  {
    var rows := AccessCandidates(patients, requests, doctorId);
    SqlNewerIsTotalPreorder();
    TopOfSortBy(rows, AccessLimit, SqlNewer);
    KindSurvives(rows, AccessLimit, AccessGranted);
    Take(SortBy(rows, SqlNewer), AccessLimit)
  }

  /** Sorting and capping a list keeps only entries that were in it. */
  lemma KindSurvives(rows: seq<Activity>, n: nat, kind: ActivityKind)
    requires forall x :: x in rows ==> x.kind == kind
    ensures forall x :: x in Take(SortBy(rows, SqlNewer), n) ==> x.kind == kind
  {
    var sorted := SortBy(rows, SqlNewer);
    forall x | x in Take(sorted, n) ensures x.kind == kind {
      assert x in sorted;
      assert x in multiset(sorted);
    }
  }

  /** `[...recentRecords, ...recentAlerts, ...recentAccess]`. */
  function AllActivity(patients: seq<Patient>, records: seq<MedicalRecord>, alerts: seq<Alert>, requests: seq<AccessRequest>, doctorId: int): seq<Activity>
  {
    RecentRecords(patients, records, doctorId) + RecentAlerts(patients, alerts, doctorId) + RecentAccess(patients, requests, doctorId)
  }

  /** The merged feed: records, then alerts, then grants, stably sorted newest first and
      cut to ten entries. It keeps ten of the merged entries, or all when there are
      fewer. */
  function RecentActivity(patients: seq<Patient>, records: seq<MedicalRecord>, alerts: seq<Alert>, requests: seq<AccessRequest>, doctorId: int): (feed: seq<Activity>)
    ensures var all := AllActivity(patients, records, alerts, requests, doctorId);
      && |feed| == (if |all| <= FeedLimit then |all| else FeedLimit)
      && multiset(feed) <= multiset(all)
  {
    var all := AllActivity(patients, records, alerts, requests, doctorId);
    JsNewerIsTotalPreorder();
    TopOfSortBy(all, FeedLimit, JsNewer);
    Take(SortBy(all, JsNewer), FeedLimit)
  }

  /** The three WHERE clauses of the counts. */
  function LiveGrantBy(doctorId: int, now: Millis): AccessRequest -> bool
  {
    (ar: AccessRequest) => ar.doctorId == doctorId && IsLiveGrant(ar, now)
  }

  function AuthoredBy(doctorId: int): MedicalRecord -> bool
  {
    (r: MedicalRecord) => r.doctorId == Some(doctorId)
  }

  function RaisedBy(doctorId: int): Alert -> bool
  {
    (a: Alert) => a.doctorId == doctorId
  }

  /** Each count is the number of rows its WHERE clause selects (grant rows, not distinct
      patients), and the feed is `RecentActivity`. */
  function GetDoctorStats(patients: seq<Patient>, records: seq<MedicalRecord>, alerts: seq<Alert>, requests: seq<AccessRequest>, doctorId: int, now: Millis): (s: DoctorStats)
    ensures s.totalPatients == |set i | 0 <= i < |requests| && requests[i].doctorId == doctorId && IsLiveGrant(requests[i], now)|
    ensures s.totalRecordsAdded == |set i | 0 <= i < |records| && records[i].doctorId == Some(doctorId)|
    ensures s.totalAlertsRaised == |set i | 0 <= i < |alerts| && alerts[i].doctorId == doctorId|
    ensures s.totalRecordsAdded <= |records| && s.totalAlertsRaised <= |alerts| && s.totalPatients <= |requests|
    ensures s.recentActivity == RecentActivity(patients, records, alerts, requests, doctorId)
  {
    CountsAreCardinalities(records, alerts, requests, doctorId, now);
    DoctorStats(
      CountWhere(requests, LiveGrantBy(doctorId, now)),
      CountWhere(records, AuthoredBy(doctorId)),
      CountWhere(alerts, RaisedBy(doctorId)),
      RecentActivity(patients, records, alerts, requests, doctorId))
  }

  /** The three `COUNT(*)` queries count the positions their WHERE clause selects. */
  lemma CountsAreCardinalities(records: seq<MedicalRecord>, alerts: seq<Alert>, requests: seq<AccessRequest>, doctorId: int, now: Millis)
    ensures CountWhere(requests, LiveGrantBy(doctorId, now))
      == |set i | 0 <= i < |requests| && requests[i].doctorId == doctorId && IsLiveGrant(requests[i], now)|
    ensures CountWhere(records, AuthoredBy(doctorId)) == |set i | 0 <= i < |records| && records[i].doctorId == Some(doctorId)|
    ensures CountWhere(alerts, RaisedBy(doctorId)) == |set i | 0 <= i < |alerts| && alerts[i].doctorId == doctorId|
  {
    GrantCount(requests, doctorId, now);
    RecordCount(records, doctorId);
    AlertCount(alerts, doctorId);
  }

  lemma GrantCount(requests: seq<AccessRequest>, doctorId: int, now: Millis)
    ensures CountWhere(requests, LiveGrantBy(doctorId, now))
      == |set i | 0 <= i < |requests| && requests[i].doctorId == doctorId && IsLiveGrant(requests[i], now)|
  {
    var p := LiveGrantBy(doctorId, now);
    CountWhereIsCardinality(requests, p);
    var direct := set i | 0 <= i < |requests| && requests[i].doctorId == doctorId && IsLiveGrant(requests[i], now);
    forall i ensures i in Satisfying(requests, p) <==> i in direct {
    }
    assert Satisfying(requests, p) == direct;
  }

  lemma RecordCount(records: seq<MedicalRecord>, doctorId: int)
    ensures CountWhere(records, AuthoredBy(doctorId)) == |set i | 0 <= i < |records| && records[i].doctorId == Some(doctorId)|
  {
    var p := AuthoredBy(doctorId);
    CountWhereIsCardinality(records, p);
    var direct := set i | 0 <= i < |records| && records[i].doctorId == Some(doctorId);
    forall i ensures i in Satisfying(records, p) <==> i in direct {
    }
    assert Satisfying(records, p) == direct;
  }

  lemma AlertCount(alerts: seq<Alert>, doctorId: int)
    ensures CountWhere(alerts, RaisedBy(doctorId)) == |set i | 0 <= i < |alerts| && alerts[i].doctorId == doctorId|
  {
    var p := RaisedBy(doctorId);
    CountWhereIsCardinality(alerts, p);
    var direct := set i | 0 <= i < |alerts| && alerts[i].doctorId == doctorId;
    forall i ensures i in Satisfying(alerts, p) <==> i in direct {
    }
    assert Satisfying(alerts, p) == direct;
  }

  lemma JsNewerIsTotalPreorder()
    ensures TotalPreorder(JsNewer)
  {
  }

  /** What the feed promises about the three capped lists it merges: at most ten
      entries, all of them when there are fewer; dates never increase along it; every
      entry is an entry of the list of its kind; no merged entry left out is newer than
      an entry kept; and entries with the same date keep the order they had in
      records ++ alerts ++ grants (the JavaScript sort is stable). */
  ghost predicate IsFeedOf(feed: seq<Activity>, rr: seq<Activity>, ra: seq<Activity>, rg: seq<Activity>)
  {
    var all := rr + ra + rg;
    && |feed| == (if |all| <= 10 then |all| else 10)
    && (forall i, j :: 0 <= i < j < |feed| ==> JsTime(feed[i].date) >= JsTime(feed[j].date))
    && (forall x :: x in feed ==> (x.kind == RecordAdded && x in rr) || (x.kind == AlertRaised && x in ra) || (x.kind == AccessGranted && x in rg))
    && (forall x, y :: x in feed && y in multiset(all) - multiset(feed) ==> JsNewer(x, y))
    && (forall y :: TiedWith(feed, y, JsNewer) <= TiedWith(all, y, JsNewer))
  }

  lemma RecentActivityCorrect(patients: seq<Patient>, records: seq<MedicalRecord>, alerts: seq<Alert>, requests: seq<AccessRequest>, doctorId: int)
    ensures IsFeedOf(RecentActivity(patients, records, alerts, requests, doctorId),
      RecentRecords(patients, records, doctorId), RecentAlerts(patients, alerts, doctorId), RecentAccess(patients, requests, doctorId))
  {
    var rr := RecentRecords(patients, records, doctorId);
    var ra := RecentAlerts(patients, alerts, doctorId);
    var rg := RecentAccess(patients, requests, doctorId);
    assert RecentActivity(patients, records, alerts, requests, doctorId) == Take(SortBy(rr + ra + rg, JsNewer), FeedLimit);
    FeedCorrect(rr, ra, rg);
  }

  /** `RecentActivityCorrect` for any three lists of the three kinds. */
  lemma FeedCorrect(rr: seq<Activity>, ra: seq<Activity>, rg: seq<Activity>)
    requires forall x :: x in rr ==> x.kind == RecordAdded
    requires forall x :: x in ra ==> x.kind == AlertRaised
    requires forall x :: x in rg ==> x.kind == AccessGranted
    ensures IsFeedOf(Take(SortBy(rr + ra + rg, JsNewer), FeedLimit), rr, ra, rg)
  {
    JsNewerIsTotalPreorder();
    TopOfSortBy(rr + ra + rg, FeedLimit, JsNewer);
    FeedFromSources(rr, ra, rg);
    FeedIsStable(rr + ra + rg);
  }

  /** Every feed entry comes from the capped list of its kind. */
  lemma FeedFromSources(rr: seq<Activity>, ra: seq<Activity>, rg: seq<Activity>)
    requires forall x :: x in rr ==> x.kind == RecordAdded
    requires forall x :: x in ra ==> x.kind == AlertRaised
    requires forall x :: x in rg ==> x.kind == AccessGranted
    ensures forall x :: x in Take(SortBy(rr + ra + rg, JsNewer), FeedLimit) ==>
      (x.kind == RecordAdded && x in rr) || (x.kind == AlertRaised && x in ra) || (x.kind == AccessGranted && x in rg)
  {
    var sorted := SortBy(rr + ra + rg, JsNewer);
    forall x | x in Take(sorted, FeedLimit)
      ensures (x.kind == RecordAdded && x in rr) || (x.kind == AlertRaised && x in ra) || (x.kind == AccessGranted && x in rg)
    {
      assert x in multiset(sorted);
      assert x in rr + ra + rg;
    }
  }

  /** Sorting and cutting keep the input order among entries with equal dates. */
  lemma FeedIsStable(all: seq<Activity>)
    ensures forall y :: TiedWith(Take(SortBy(all, JsNewer), FeedLimit), y, JsNewer) <= TiedWith(all, y, JsNewer)
  {
    JsNewerIsTotalPreorder();
    forall y ensures TiedWith(Take(SortBy(all, JsNewer), FeedLimit), y, JsNewer) <= TiedWith(all, y, JsNewer) {
      SortByIsStable(all, y, JsNewer);
      TiedWithTake(SortBy(all, JsNewer), FeedLimit, y, JsNewer);
    }
  }

  /** The grant list ignores expiry: an approved grant that has already expired still
      qualifies as access-granted activity. */
  lemma ExpiredGrantsStillListed(patients: seq<Patient>, requests: seq<AccessRequest>, doctorId: int, k: nat, now: Millis)
    requires k < |requests| && requests[k].doctorId == doctorId && requests[k].status == Approved
    requires PatientById(patients, requests[k].patientId).Some?
    requires requests[k].expiresAt.Some? && requests[k].expiresAt.value <= now
    ensures !IsLiveGrant(requests[k], now)
    ensures GrantActivity(patients, doctorId, requests[k]).Some?
    ensures GrantActivity(patients, doctorId, requests[k]).value in AccessCandidates(patients, requests, doctorId)
  {
  }

  /** `total_patients` counts grant rows, not distinct patients: two live grants from one
      patient count twice. */
  lemma TotalPatientsCountsRows(p: Patient, g1: AccessRequest, g2: AccessRequest, now: Millis)
    requires g1.patientId == p.id && g2.patientId == p.id && g1.doctorId == g2.doctorId
    requires IsLiveGrant(g1, now) && IsLiveGrant(g2, now)
    ensures GetDoctorStats([p], [], [], [g1, g2], g1.doctorId, now).totalPatients == 2
  {
    var live := LiveGrantBy(g1.doctorId, now);
    assert live(g1) && live(g2);
    assert [g1, g2][1..] == [g2];
    assert CountWhere([g2], live) == 1;
  }

  /** A record the doctor adds raises their record count by exactly one. */
  lemma AddedRecordIsCounted(patients: seq<Patient>, records: seq<MedicalRecord>, alerts: seq<Alert>, requests: seq<AccessRequest>,
                             id: int, req: AddRecordRequest, now: Millis)
    requires NamesDoctor(req)
    ensures var d := req.doctorId.value;
      GetDoctorStats(patients, records + [NewRecord(id, req, now)], alerts, requests, d, now).totalRecordsAdded
        == GetDoctorStats(patients, records, alerts, requests, d, now).totalRecordsAdded + 1
  {
    var d := req.doctorId.value;
    CountWhereAppend(records, NewRecord(id, req, now), AuthoredBy(d));
  }
}
