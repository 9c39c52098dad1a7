/** The identity registry's pure parts: the medical ID and QR value given to a new patient,
    login, and the search by medical ID. The clock, the random bytes and bcrypt's
    comparison are parameters. */
module Identity {
  import opened HealthTypes
  import opened Tables

  newtype byte = x: int | 0 <= x < 256

  // ---------------------------------------------------------------------------------
  // generateMedicalId

  function Pow10(k: nat): (p: nat)
    ensures p >= 1
  {
    if k == 0 then 1 else 10 * Pow10(k - 1)
  }

  function DigitChar(d: nat): (c: char)
    requires d < 10
    ensures '0' <= c <= '9'
  {
    "0123456789"[d]
  }

  /** `n.toString()` for a non-negative integer: decimal digits, no leading zeros. */
  function Decimal(n: nat): (s: string)
    ensures |s| >= 1
    ensures forall i :: 0 <= i < |s| ==> '0' <= s[i] <= '9'
    ensures |s| > 1 ==> s[0] != '0'
  {
    if n < 10 then [DigitChar(n)] else Decimal(n / 10) + [DigitChar(n % 10)]
  }

  predicate IsDigits(s: string)
  {
    forall i :: 0 <= i < |s| ==> '0' <= s[i] <= '9'
  }

  /** The number a string of decimal digits denotes, most significant digit first. */
  function DecimalValue(s: string): (n: nat)
    requires IsDigits(s)
  {
    if s == [] then 0 else 10 * DecimalValue(s[..|s| - 1]) + (s[|s| - 1] as int - '0' as int)
  }

  lemma DigitCharValue(d: nat)
    requires d < 10
    ensures DigitChar(d) as int - '0' as int == d
  {
  }

  /** Reading the digits of `n` back gives `n`. */
  lemma {:induction false} DecimalRoundTrip(n: nat)
    ensures DecimalValue(Decimal(n)) == n
  {
    var s := Decimal(n);
    if n < 10 {
      DigitCharValue(n);
    } else {
      assert s[..|s| - 1] == Decimal(n / 10);
      DecimalRoundTrip(n / 10);
      DigitCharValue(n % 10);
    }
  }

  lemma MulSign(d: int, m: int)
    requires m > 0
    ensures d >= 1 ==> d * m >= m
    ensures d <= -1 ==> d * m <= -m
  {
  }

  /** A quotient and remainder in range are the ones `/` and `%` give. */
  lemma ModUnique(x: int, m: int, q: int, r: int)
    requires m > 0 && 0 <= r < m && x == q * m + r
    ensures x % m == r
  {
    var d := q - x / m;
    assert d * m == x % m - r;
    MulSign(d, m);
  }

  /** `(10a + d) mod 10p` keeps the last digit and the rest modulo `p`. */
  lemma ModShift(x: nat, m: nat, a: nat, d: nat, p: nat)
    requires d < 10 && p >= 1 && x == 10 * a + d && m == 10 * p
    ensures x % m == 10 * (a % p) + d
  {
    var q, r := a / p, a % p;
    assert x == q * m + (10 * r + d);
    ModUnique(x, m, q, 10 * r + d);
  }

  /** The last `k` digits of a digit string denote its value modulo 10^k. */
  lemma {:induction false} SliceLastValue(s: string, k: nat)
    requires IsDigits(s)
    ensures IsDigits(SliceLast(s, k))
    ensures DecimalValue(SliceLast(s, k)) == DecimalValue(s) % Pow10(k)
  {
    if s == [] {
      assert DecimalValue(s) == 0;
    } else if k == 0 {
      assert SliceLast(s, k) == [];
    } else {
      SliceLastValue(s[..|s| - 1], k - 1);
      SliceLastStep(s, k);
    }
  }

  /** One digit more on both sides of `SliceLastValue`. */
  lemma SliceLastStep(s: string, k: nat)
    requires IsDigits(s) && s != [] && k > 0
    requires DecimalValue(SliceLast(s[..|s| - 1], k - 1)) == DecimalValue(s[..|s| - 1]) % Pow10(k - 1)
    ensures IsDigits(SliceLast(s, k))
    ensures DecimalValue(SliceLast(s, k)) == DecimalValue(s) % Pow10(k)
  {
    var init := s[..|s| - 1];
    var d := s[|s| - 1] as int - '0' as int;
    var t := SliceLast(s, k);
    SliceLastSnoc(s, k);
    DecimalValueSnoc(t);
    DecimalValueSnoc(s);
    StepValue(DecimalValue(s), DecimalValue(t), DecimalValue(init), DecimalValue(SliceLast(init, k - 1)), d, Pow10(k - 1), Pow10(k));
  }

  /** The arithmetic of one step: `y = 10b + d` with `b = a mod p` is `(10a + d) mod 10p`. */
  lemma StepValue(x: nat, y: nat, a: nat, b: nat, d: nat, p: nat, m: nat)
    requires d < 10 && p >= 1 && m == 10 * p
    requires x == 10 * a + d && y == 10 * b + d && b == a % p
    ensures y == x % m
  {
    ModShift(x, m, a, d, p);
  }

  lemma DecimalValueSnoc(t: string)
    requires IsDigits(t) && t != []
    ensures IsDigits(t[..|t| - 1])
    ensures DecimalValue(t) == 10 * DecimalValue(t[..|t| - 1]) + (t[|t| - 1] as int - '0' as int)
  {
  }

  /** The last `k` characters are the last `k - 1` of all but the last, then the last. */
  lemma SliceLastSnoc(s: string, k: nat)
    requires s != [] && k > 0
    ensures var t := SliceLast(s, k);
      t != [] && t[..|t| - 1] == SliceLast(s[..|s| - 1], k - 1) && t[|t| - 1] == s[|s| - 1]
  {
    var t := SliceLast(s, k);
    assert t == SliceLast(s[..|s| - 1], k - 1) + [s[|s| - 1]];
  }

  /** A number of at least 10^k has more than k decimal digits. */
  lemma {:induction false} DecimalHasDigits(n: nat, k: nat)
    requires n >= Pow10(k)
    ensures |Decimal(n)| > k
  {
    if k > 0 {
      assert n / 10 >= Pow10(k - 1);
      DecimalHasDigits(n / 10, k - 1);
    }
  }

  lemma AtLeastSixDigits(n: nat)
    ensures n >= 100000 ==> |Decimal(n)| >= 6
  {
    if n >= 100000 {
      assert Pow10(5) == 100000;
      DecimalHasDigits(n, 5);
    }
  }

  /** `s.slice(-k)` for `k > 0`: the last k characters, or all of them when there are
      fewer. (JavaScript's `slice(-0)` is the whole string; the only use here is k = 6.) */
  function SliceLast(s: string, k: nat): (r: string)
    ensures |r| == if |s| < k then |s| else k
    ensures r == s[|s| - |r|..]
  {
    if |s| < k then s else s[|s| - k..]
  }

  const LowerHexDigits: string := "0123456789abcdef"
  const UpperHexDigits: string := "0123456789ABCDEF"

  /** `Buffer.toString('hex')`: two lower-case digits per byte, high nibble first. */
  function LowerHex(bytes: seq<byte>): (s: string)
    ensures |s| == 2 * |bytes|
  {
    if bytes == [] then []
    else [LowerHexDigits[bytes[0] as int / 16], LowerHexDigits[bytes[0] as int % 16]] + LowerHex(bytes[1..])
  }

  function UpperChar(c: char): char
  {
    if 'a' <= c <= 'z' then (c as int - 32) as char else c
  }

  /** `toUpperCase()` on ASCII text: only `a`..`z` change. */
  function AsciiUpper(s: string): (r: string)
    ensures |r| == |s|
    ensures forall i :: 0 <= i < |s| ==> r[i] == UpperChar(s[i])
  {
    if s == [] then [] else [UpperChar(s[0])] + AsciiUpper(s[1..])
  }

  /** Upper-case hex, two digits per byte: the reference the medical ID's tail is read against. */
  function UpperHex(bytes: seq<byte>): (s: string)
    ensures |s| == 2 * |bytes|
    ensures forall i :: 0 <= i < |s| ==> s[i] in UpperHexDigits
  {
    if bytes == [] then []
    else [UpperHexDigits[bytes[0] as int / 16], UpperHexDigits[bytes[0] as int % 16]] + UpperHex(bytes[1..])
  }

  lemma UpperOfLowerDigit(d: nat)
    requires d < 16
    ensures UpperChar(LowerHexDigits[d]) == UpperHexDigits[d]
  {
  }

  /** Upper-casing lower-case hex is upper-case hex. */
  lemma {:induction false} UpperOfLowerHex(bytes: seq<byte>)
    ensures AsciiUpper(LowerHex(bytes)) == UpperHex(bytes)
  {
    if bytes != [] {
      UpperOfLowerHex(bytes[1..]);
      var b := bytes[0] as int;
      UpperOfLowerDigit(b / 16);
      UpperOfLowerDigit(b % 16);
      var h := LowerHex(bytes);
      assert h == [LowerHexDigits[b / 16], LowerHexDigits[b % 16]] + LowerHex(bytes[1..]);
      assert AsciiUpper(h) == [UpperChar(h[0]), UpperChar(h[1])] + AsciiUpper(LowerHex(bytes[1..]));
    }
  }

  /** `MID` + the last six digits of the clock + the four random bytes in upper-case hex. */
  function GenerateMedicalId(nowMillis: nat, random: seq<byte>): (id: string)
    requires |random| == 4
    ensures |id| == 3 + |SliceLast(Decimal(nowMillis), 6)| + 8
    ensures id[..3] == "MID"
    ensures id[3..|id| - 8] == SliceLast(Decimal(nowMillis), 6)
    ensures forall i :: 3 <= i < |id| - 8 ==> '0' <= id[i] <= '9'
    ensures nowMillis >= 100000 ==> |id| == 17
  {
    var digits := SliceLast(Decimal(nowMillis), 6);
    var hex := AsciiUpper(LowerHex(random));
    AtLeastSixDigits(nowMillis);
    "MID" + digits + hex
  }

  /** The digits after `MID` denote the clock modulo 10^6: the six lowest decimal digits
      of the millisecond count, or all of them for a smaller count. */
  lemma MedicalIdClockPart(nowMillis: nat, random: seq<byte>)
    requires |random| == 4
    ensures var id := GenerateMedicalId(nowMillis, random);
      IsDigits(id[3..|id| - 8]) && DecimalValue(id[3..|id| - 8]) == nowMillis % 1000000
  {
    DecimalRoundTrip(nowMillis);
    SliceLastValue(Decimal(nowMillis), 6);
    assert Pow10(6) == 1000000;
  }

  function HexValue(c: char): (v: int)
    requires c in UpperHexDigits
    ensures 0 <= v < 16 && UpperHexDigits[v] == c
  {
    if '0' <= c <= '9' then c as int - '0' as int else c as int - 'A' as int + 10
  }

  /** Reads upper-case hex back into bytes. */
  function ParseUpperHex(s: string): (bytes: seq<byte>)
    requires |s| % 2 == 0
    requires forall i :: 0 <= i < |s| ==> s[i] in UpperHexDigits
    ensures |bytes| == |s| / 2
  {
    if s == [] then []
    else [ByteOf(HexValue(s[0]), HexValue(s[1]))] + ParseUpperHex(s[2..])
  }

  function ByteOf(high: int, low: int): (b: byte)
    requires 0 <= high < 16 && 0 <= low < 16
    ensures b as int == 16 * high + low
  {
    (16 * high + low) as byte
  }

  lemma HexDigitValue(d: nat)
    requires d < 16
    ensures HexValue(UpperHexDigits[d]) == d
  {
  }

  lemma {:induction false} HexRoundTrip(bytes: seq<byte>)
    ensures ParseUpperHex(UpperHex(bytes)) == bytes
  {
    if bytes != [] {
      var h := UpperHex(bytes);
      var b := bytes[0] as int;
      assert h[2..] == UpperHex(bytes[1..]);
      assert ParseUpperHex(h[2..]) == bytes[1..] by {
        HexRoundTrip(bytes[1..]);
      }
      assert ByteOf(HexValue(h[0]), HexValue(h[1])) == bytes[0] by {
        HexDigitValue(b / 16);
        HexDigitValue(b % 16);
      }
    }
  }

  /** The last eight characters of a medical ID are the random bytes in upper-case hex,
      so each is one of `0-9A-F`, and reading them back gives the bytes. */
  lemma MedicalIdHexPart(nowMillis: nat, random: seq<byte>)
    requires |random| == 4
    ensures var id := GenerateMedicalId(nowMillis, random);
      && id[|id| - 8..] == UpperHex(random)
      && (forall i :: |id| - 8 <= i < |id| ==> id[i] in UpperHexDigits)
      && ParseUpperHex(id[|id| - 8..]) == random
  {
    var id := GenerateMedicalId(nowMillis, random);
    assert id[|id| - 8..] == AsciiUpper(LowerHex(random));
    UpperOfLowerHex(random);
    HexRoundTrip(random);
  }

  // ---------------------------------------------------------------------------------
  // generateQRCode

  const QrPrefix: string := "https://health-system.com/qr/"

  /** The placeholder QR value: a fixed URL prefix followed by the medical ID. */
  function GenerateQrCode(medicalId: string): (qr: string)
    ensures |qr| == |QrPrefix| + |medicalId|
    ensures qr[..|QrPrefix|] == QrPrefix
  {
    QrPrefix + medicalId
  }

  /** The medical ID a QR value stands for, when it has the prefix. */
  function MedicalIdOfQr(qr: string): (m: Option<string>)
    ensures m.Some? <==> QrPrefix <= qr
  {
    if QrPrefix <= qr then Some(qr[|QrPrefix|..]) else None
  }

  /** Stripping the prefix recovers the medical ID, so distinct IDs get distinct QR values. */
  lemma QrRoundTrip(medicalId: string)
    ensures MedicalIdOfQr(GenerateQrCode(medicalId)) == Some(medicalId)
  {
    assert QrPrefix <= GenerateQrCode(medicalId);
    assert GenerateQrCode(medicalId)[|QrPrefix|..] == medicalId;
  }

  lemma QrInjective(a: string, b: string)
    requires GenerateQrCode(a) == GenerateQrCode(b)
    ensures a == b
  {
    QrRoundTrip(a);
    QrRoundTrip(b);
  }

  // ---------------------------------------------------------------------------------
  // registerPatient / registerDoctor / registerAdmin: the rows they insert

  /** The fields of a patient sign-up other than the password. */
  datatype PatientSignup = PatientSignup(
    email: string,
    phone: Option<string>,
    firstName: string,
    lastName: string,
    dateOfBirth: Option<string>,
    gender: Option<string>,
    bloodType: Option<string>,
    emergencyContactName: Option<string>,
    emergencyContactPhone: Option<string>,
    address: Option<string>,
    allergies: Option<string>,
    medicalConditions: Option<string>)

  /** The fields of a doctor sign-up other than the password. */
  datatype DoctorSignup = DoctorSignup(
    email: string,
    phone: Option<string>,
    firstName: string,
    lastName: string,
    licenseNumber: string,
    specialization: Option<string>,
    hospitalAffiliation: Option<string>)

  /** The users row: an empty or absent phone is stored as null. */
  function NewUser(id: int, email: string, phone: Option<string>, role: Role, passwordHash: string): (u: User)
    ensures u.id == id && u.email == email && u.role == role && u.passwordHash == passwordHash
    ensures u.phone.Some? <==> phone.Some? && phone.value != ""
    ensures u.phone.Some? ==> u.phone == phone
  {
    User(id, email, OrNull(phone), role, passwordHash)
  }

  /** The patients row: linked to its user, the QR value derived from the medical ID, and
      every empty optional field stored as null. */
  function NewPatient(id: int, userId: int, medicalId: string, req: PatientSignup): (p: Patient)
    ensures p.id == id && p.userId == userId && p.medicalId == medicalId
    ensures MedicalIdOfQr(p.qrCode) == Some(medicalId)
    ensures p.firstName == req.firstName && p.lastName == req.lastName
    ensures p.dateOfBirth == OrNull(req.dateOfBirth) && p.gender == OrNull(req.gender) && p.bloodType == OrNull(req.bloodType)
    ensures p.emergencyContactName == OrNull(req.emergencyContactName) && p.emergencyContactPhone == OrNull(req.emergencyContactPhone)
    ensures p.address == OrNull(req.address) && p.allergies == OrNull(req.allergies) && p.medicalConditions == OrNull(req.medicalConditions)
  {
    QrRoundTrip(medicalId);
    Patient(id, userId, medicalId, GenerateQrCode(medicalId), req.firstName, req.lastName,
      OrNull(req.dateOfBirth), OrNull(req.gender), OrNull(req.bloodType),
      OrNull(req.emergencyContactName), OrNull(req.emergencyContactPhone),
      OrNull(req.address), OrNull(req.allergies), OrNull(req.medicalConditions))
  }

  /** The doctors row: the sign-up phone is stored here as well as on the user. */
  function NewDoctor(id: int, userId: int, req: DoctorSignup): (d: Doctor)
    ensures d.id == id && d.userId == userId && d.licenseNumber == req.licenseNumber
    ensures d.firstName == req.firstName && d.lastName == req.lastName
    ensures d.phone == NewUser(userId, req.email, req.phone, DoctorRole, "").phone
    ensures d.specialization == OrNull(req.specialization) && d.hospitalAffiliation == OrNull(req.hospitalAffiliation)
  {
    Doctor(id, userId, req.firstName, req.lastName, req.licenseNumber,
      OrNull(req.specialization), OrNull(req.hospitalAffiliation), OrNull(req.phone))
  }

  // ---------------------------------------------------------------------------------
  // login

  datatype UserView = UserView(id: int, email: string, role: Role)

  datatype Profile =
    | PatientProfile(id: int, firstName: string, lastName: string, medicalId: string)
    | DoctorProfile(id: int, firstName: string, lastName: string, licenseNumber: string)

  datatype LoginResponse = LoginResponse(user: UserView, profile: Option<Profile>)

  const BadCredentials: ApiError := ApiError(Unauthenticated, "Invalid email or password")

  function UserByEmail(users: seq<User>, email: string): (u: Option<User>)
    ensures u.Some? ==> u.value in users && u.value.email == email
    ensures u.None? <==> forall x :: x in users ==> x.email != email
  {
    FindFirst(users, (u: User) => u.email == email)
  }

  function PatientByUser(patients: seq<Patient>, userId: int): (p: Option<Patient>)
    ensures p.Some? ==> p.value in patients && p.value.userId == userId
    ensures p.None? <==> forall x :: x in patients ==> x.userId != userId
  {
    FindFirst(patients, (p: Patient) => p.userId == userId)
  }

  function DoctorByUser(doctors: seq<Doctor>, userId: int): (d: Option<Doctor>)
    ensures d.Some? ==> d.value in doctors && d.value.userId == userId
    ensures d.None? <==> forall x :: x in doctors ==> x.userId != userId
  {
    FindFirst(doctors, (d: Doctor) => d.userId == userId)
  }

  /** The profile returned for a role: the patient or doctor row linked to the user, none
      for an admin (or when the linked row is missing). */
  function ProfileOf(patients: seq<Patient>, doctors: seq<Doctor>, u: User): (p: Option<Profile>)
    ensures u.role == AdminRole ==> p.None?
    ensures u.role == PatientRole ==> (p.Some? <==> PatientByUser(patients, u.id).Some?)
    ensures u.role == DoctorRole ==> (p.Some? <==> DoctorByUser(doctors, u.id).Some?)
    ensures p.Some? && u.role == PatientRole ==>
      var row := PatientByUser(patients, u.id).value;
      p.value == PatientProfile(row.id, row.firstName, row.lastName, row.medicalId)
    ensures p.Some? && u.role == DoctorRole ==>
      var row := DoctorByUser(doctors, u.id).value;
      p.value == DoctorProfile(row.id, row.firstName, row.lastName, row.licenseNumber)
  {
    match u.role
    case PatientRole =>
      (match PatientByUser(patients, u.id)
       case Some(p) => Some(PatientProfile(p.id, p.firstName, p.lastName, p.medicalId))
       case None => None)
    case DoctorRole =>
      (match DoctorByUser(doctors, u.id)
       case Some(d) => Some(DoctorProfile(d.id, d.firstName, d.lastName, d.licenseNumber))
       case None => None)
    case AdminRole => None
  }

  /** An unknown email and a wrong password fail alike, with one message; otherwise the
      user's id, email and role come back with the role's profile. `verify` stands for
      bcrypt's comparison of a password with a stored hash. */
  function Login(users: seq<User>, patients: seq<Patient>, doctors: seq<Doctor>, email: string, password: string,
                 verify: (string, string) -> bool): (r: Result<LoginResponse>)
    ensures r.Err? ==> r.error == BadCredentials
    ensures (forall u :: u in users ==> u.email != email) ==> r.Err?
    ensures r.Ok? <==> UserByEmail(users, email).Some? && verify(password, UserByEmail(users, email).value.passwordHash)
    ensures r.Ok? ==> var u := UserByEmail(users, email).value;
      r.value.user == UserView(u.id, u.email, u.role) && r.value.user.email == email
      && r.value.profile == ProfileOf(patients, doctors, u)
  {
    match UserByEmail(users, email)
    case None => Err(BadCredentials)
    case Some(u) =>
      if !verify(password, u.passwordHash) then Err(BadCredentials)
      else Ok(LoginResponse(UserView(u.id, u.email, u.role), ProfileOf(patients, doctors, u)))
  }

  // ---------------------------------------------------------------------------------
  // searchPatient

  /** The projection searchPatient returns: no contact, medical or QR fields. */
  datatype PatientCard = PatientCard(id: int, medicalId: string, firstName: string, lastName: string,
                                     dateOfBirth: Option<string>, gender: Option<string>)

  function SearchPatient(patients: seq<Patient>, medicalId: string): (r: Result<PatientCard>)
    ensures r.Err? <==> forall p :: p in patients ==> p.medicalId != medicalId
    ensures r.Err? ==> r.error == ApiError(NotFound, "Patient not found")
    ensures r.Ok? ==> (r.value.medicalId == medicalId &&
      exists p :: p in patients && p.medicalId == medicalId && r.value == PatientCard(p.id, p.medicalId, p.firstName, p.lastName, p.dateOfBirth, p.gender))
  {
    match FindFirst(patients, (p: Patient) => p.medicalId == medicalId)
    case None => Err(ApiError(NotFound, "Patient not found"))
    case Some(p) => Ok(PatientCard(p.id, p.medicalId, p.firstName, p.lastName, p.dateOfBirth, p.gender))
  }
}
