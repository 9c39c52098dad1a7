/** Single-row lookups (`queryRow`): the first row of a table that satisfies a WHERE
    clause, or null when none does. Primary keys and the unique columns are kept unique by
    `Store.HealthStore.Valid`, so "first" is "the" row wherever that invariant holds. */
module Tables {
  import opened HealthTypes

  /** The index of the first row satisfying `p`. */
  function IndexOfFirst<T>(s: seq<T>, p: T -> bool): (r: Option<nat>)
    ensures r.None? <==> forall i :: 0 <= i < |s| ==> !p(s[i])
    ensures r.Some? ==> r.value < |s| && p(s[r.value]) && forall j :: 0 <= j < r.value ==> !p(s[j])
  {
    if s == [] then None
    else if p(s[0]) then Some(0)
    else
      var r := IndexOfFirst(s[1..], p);
      if r.Some? then Some(r.value + 1) else None
  }

  /** The first row satisfying `p`. */
  function FindFirst<T>(s: seq<T>, p: T -> bool): (r: Option<T>)
    ensures r.None? <==> forall i :: 0 <= i < |s| ==> !p(s[i])
    ensures r.Some? ==> exists i :: 0 <= i < |s| && s[i] == r.value && p(s[i]) && forall j :: 0 <= j < i ==> !p(s[j])
  {
    match IndexOfFirst(s, p)
    case None => None
    case Some(i) => Some(s[i])
  }

  /** Rows with pairwise distinct keys. */
  ghost predicate UniqueBy<T, K>(s: seq<T>, key: T -> K)
  {
    forall i, j :: 0 <= i < j < |s| ==> key(s[i]) != key(s[j])
  }

  /** With unique keys, the first row with a key is the only one. */
  lemma FirstIsOnly<T, K>(s: seq<T>, key: T -> K, k: K, i: nat)
    requires UniqueBy(s, key)
    requires i < |s| && key(s[i]) == k
    ensures IndexOfFirst(s, x => key(x) == k) == Some(i)
  {
  }

  function PatientById(patients: seq<Patient>, id: int): (r: Option<Patient>)
    ensures r.Some? ==> r.value in patients && r.value.id == id
    ensures r.None? <==> forall p :: p in patients ==> p.id != id
  {
    FindFirst(patients, (p: Patient) => p.id == id)
  }

  function DoctorById(doctors: seq<Doctor>, id: int): (r: Option<Doctor>)
    ensures r.Some? ==> r.value in doctors && r.value.id == id
    ensures r.None? <==> forall d :: d in doctors ==> d.id != id
  {
    FindFirst(doctors, (d: Doctor) => d.id == id)
  }

  /** `COUNT(*)` of the rows satisfying `p`. */
  function CountWhere<T>(s: seq<T>, p: T -> bool): (n: nat)
    ensures n <= |s|
    ensures n == 0 <==> forall i :: 0 <= i < |s| ==> !p(s[i])
  {
    if s == [] then 0
    else (if p(s[0]) then 1 else 0) + CountWhere(s[1..], p)
  }

  lemma {:induction false} CountWhereAppend<T>(s: seq<T>, x: T, p: T -> bool)
    ensures CountWhere(s + [x], p) == CountWhere(s, p) + (if p(x) then 1 else 0)
  {
    if s == [] {
      assert s + [x] == [x];
    } else {
      assert (s + [x])[1..] == s[1..] + [x];
      CountWhereAppend(s[1..], x, p);
    }
  }

  /** The positions of the rows satisfying `p`. */
  ghost function Satisfying<T>(s: seq<T>, p: T -> bool): set<int>
  {
    set i | 0 <= i < |s| && p(s[i])
  }

  /** `COUNT(*)` is the number of positions whose row satisfies `p`. */
  lemma {:induction false} CountWhereIsCardinality<T>(s: seq<T>, p: T -> bool)
    ensures CountWhere(s, p) == |Satisfying(s, p)|
  {
    if s != [] {
      var n := |s| - 1;
      var init := s[..n];
      assert s == init + [s[n]];
      CountWhereAppend(init, s[n], p);
      CountWhereIsCardinality(init, p);
      var all := Satisfying(s, p);
      var before := Satisfying(init, p);
      var last: set<int> := if p(s[n]) then {n} else {};
      forall i ensures i in all <==> i in before + last {
        if 0 <= i < n {
          assert init[i] == s[i];
        }
      }
      assert all == before + last;
      assert n !in before;
    }
  }

  /** The rows `f` maps to a value, mapped, in table order: a filter, join and projection. */
  function FilterMap<T, U>(s: seq<T>, f: T -> Option<U>): (r: seq<U>)
    ensures |r| <= |s|
    ensures forall y :: y in r ==> exists i :: 0 <= i < |s| && f(s[i]) == Some(y)
    ensures forall i :: 0 <= i < |s| && f(s[i]).Some? ==> f(s[i]).value in r
  {
    if s == [] then []
    else
      var rest := FilterMap(s[1..], f);
      assert forall i :: 1 <= i < |s| ==> s[i] == s[1..][i - 1];
      match f(s[0])
      case Some(y) => [y] + rest
      case None => rest
  }

  lemma {:induction false} FilterMapAppend<T, U>(s: seq<T>, x: T, f: T -> Option<U>)
    ensures FilterMap(s + [x], f) == FilterMap(s, f) + (if f(x).Some? then [f(x).value] else [])
  {
    if s == [] {
      assert s + [x] == [x];
    } else {
      assert (s + [x])[0] == s[0] && (s + [x])[1..] == s[1..] + [x];
      FilterMapAppend(s[1..], x, f);
    }
  }

  /** The positions of the rows `f` maps to `y`. */
  ghost function PositionsOf<T, U>(s: seq<T>, f: T -> Option<U>, y: U): set<int>
  {
    set i | 0 <= i < |s| && f(s[i]) == Some(y)
  }

  /** A value occurs in `FilterMap(s, f)` once for every position `f` maps to it: an
      inner join without DISTINCT yields one row per qualifying row. */
  lemma {:induction false} FilterMapMultiplicity<T, U>(s: seq<T>, f: T -> Option<U>, y: U)
    ensures multiset(FilterMap(s, f))[y] == |PositionsOf(s, f, y)|
  {
    if s != [] {
      var n := |s| - 1;
      assert s == s[..n] + [s[n]];
      FilterMapAppend(s[..n], s[n], f);
      FilterMapMultiplicity(s[..n], f, y);
      PositionsSnoc(s, f, y);
    }
  }

  /** The positions `f` maps to `y`: those of all but the last row, and the last one if
      it qualifies. */
  lemma PositionsSnoc<T, U>(s: seq<T>, f: T -> Option<U>, y: U)
    requires s != []
    ensures var n := |s| - 1;
      |PositionsOf(s, f, y)| == |PositionsOf(s[..n], f, y)| + (if f(s[n]) == Some(y) then 1 else 0)
  {
    var n := |s| - 1;
    var all := PositionsOf(s, f, y);
    var before := PositionsOf(s[..n], f, y);
    var last: set<int> := if f(s[n]) == Some(y) then {n} else {};
    forall i ensures i in all <==> i in before + last {
      if 0 <= i < n {
        assert s[..n][i] == s[i];
      }
    }
    assert all == before + last;
    assert n !in before;
  }

  /** The position of the row with primary key `id` in each table that is updated or
      deleted by key. */
  function RequestIndex(requests: seq<AccessRequest>, id: int): (k: Option<nat>)
    ensures k.Some? ==> k.value < |requests| && requests[k.value].id == id
    ensures k.None? <==> forall ar :: ar in requests ==> ar.id != id
  {
    IndexOfFirst(requests, (ar: AccessRequest) => ar.id == id)
  }

  function RecordIndex(records: seq<MedicalRecord>, id: int): (k: Option<nat>)
    ensures k.Some? ==> k.value < |records| && records[k.value].id == id
    ensures k.None? <==> forall r :: r in records ==> r.id != id
  {
    IndexOfFirst(records, (r: MedicalRecord) => r.id == id)
  }

  function AlertIndex(alerts: seq<Alert>, id: int): (k: Option<nat>)
    ensures k.Some? ==> k.value < |alerts| && alerts[k.value].id == id
    ensures k.None? <==> forall a :: a in alerts ==> a.id != id
  {
    IndexOfFirst(alerts, (a: Alert) => a.id == id)
  }

  /** `DELETE ... WHERE id = k`'s effect on a table with unique keys: the row at `k` goes,
      the others keep their order. */
  function RemoveAt<T>(s: seq<T>, k: nat): (r: seq<T>)
    requires k < |s|
    ensures |r| == |s| - 1
    ensures forall i :: 0 <= i < k ==> r[i] == s[i]
    ensures forall i :: k <= i < |r| ==> r[i] == s[i + 1]
    ensures multiset(r) + multiset{s[k]} == multiset(s)
  {
    assert s == s[..k] + [s[k]] + s[k + 1..];
    s[..k] + s[k + 1..]
  }
}
