/** The authentication helpers: sending and verifying one-time passwords
    against a table of OTP records, registration, login and logout. Every
    operation reports failure as a `{success: false, message}` value, and
    every one has a demo branch taken when the backend is not configured. */
module Auth {
  import opened Wrappers
  import opened Text

  /** `{ success, message }`, the shape every helper returns. */
  datatype Outcome = Outcome(success: bool, message: string)

  /** How a remote call ended: it answered, it answered with an error
      object, or it threw. */
  datatype Link = Answered | Errored | Threw

  /** A row of the `otp_verifications` table; times are milliseconds since
      the epoch. */
  datatype OtpRecord = OtpRecord(
    id: string,
    phone: string,
    otp: string,
    purpose: string,
    isVerified: bool,
    expiresAt: int,
    createdAt: int)

  /** What `verifyOTP` is asked to check. */
  datatype OtpQuery = OtpQuery(phone: string, otp: string, purpose: string)

  /** The code the demo mode accepts. */
  const DemoOtp: string := "123456"

  /** Ten minutes, in milliseconds. */
  const OtpLifetime: int := 10 * 60 * 1000

  // ---------------------------------------------------------------------
  // Generating and sending a code
  // ---------------------------------------------------------------------

  /** `Math.floor(100000 + Math.random() * 900000).toString()`, with the
      random draw already scaled and floored to `k`. */
  function GenerateOtp(k: nat): (r: string)
    requires k < 900000
    ensures |r| == 6 && AllDigits(r)
    ensures DigitsValue(r) == 100000 + k
  {
    var n := 100000 + k;
    assert Pow10(5) == 100000 && Pow10(6) == 1000000;
    NatToStringLength(n, 6);
    NatToStringValue(n);
    NatToString(n)
  }

  /** `sendOTP`. Demo mode reports success and stores nothing. Otherwise a
      fresh unverified record expiring ten minutes after the client clock
      `now` is inserted; `id` and `createdAt` are the values the database
      assigns (the insert sends neither), `otp` is the generated code and
      `insert` the outcome of the insert. */
  function SendOtp(configured: bool, table: seq<OtpRecord>, phone: string, purpose: string,
                   otp: string, id: string, now: int, createdAt: int, insert: Link): (r: (seq<OtpRecord>, Outcome))
    ensures !configured ==> r == (table, Outcome(true, "OTP sent successfully (Demo mode)"))
    ensures configured && insert == Answered ==>
      && r.1 == Outcome(true, "OTP sent successfully")
      && |r.0| == |table| + 1 && r.0[..|table|] == table
      && r.0[|table|] == OtpRecord(id, phone, otp, purpose, false, now + 600000, createdAt)
    ensures configured && insert != Answered ==> r == (table, Outcome(false, "Failed to send OTP"))
  {
    if !configured then (table, Outcome(true, "OTP sent successfully (Demo mode)"))
    else
      var expiresAt := now + OtpLifetime;
      match insert
      case Answered =>
        (table + [OtpRecord(id, phone, otp, purpose, false, expiresAt, createdAt)], Outcome(true, "OTP sent successfully"))
      case _ => (table, Outcome(false, "Failed to send OTP"))
  }

  // ---------------------------------------------------------------------
  // Verifying a code
  // ---------------------------------------------------------------------

  /** A record the verification query can return: same phone, code and
      purpose, not yet verified, and expiring strictly after `now`. */
  predicate Candidate(rec: OtpRecord, q: OtpQuery, now: int) {
    rec.phone == q.phone && rec.otp == q.otp && rec.purpose == q.purpose
    && !rec.isVerified && rec.expiresAt > now
  }

  predicate NoCandidate(table: seq<OtpRecord>, q: OtpQuery, now: int) {
    forall j :: 0 <= j < |table| ==> !Candidate(table[j], q, now)
  }

  /** Index `i` is the most recently created candidate; among candidates
      created at the same instant it is the first in table order. */
  predicate IsLatest(table: seq<OtpRecord>, q: OtpQuery, now: int, i: nat) {
    && i < |table| && Candidate(table[i], q, now)
    && (forall j :: 0 <= j < |table| && Candidate(table[j], q, now) ==> table[j].createdAt <= table[i].createdAt)
    && (forall j :: 0 <= j < i && Candidate(table[j], q, now) ==> table[j].createdAt < table[i].createdAt)
  }

  /** `order("created_at", { ascending: false }).limit(1)` over the
      candidates, as an index into the table. */
  function SelectLatest(table: seq<OtpRecord>, q: OtpQuery, now: int): (r: Option<nat>)
    ensures r.Some? ==> IsLatest(table, q, now, r.value)
    ensures r.None? <==> NoCandidate(table, q, now)
  {
    if table == [] then None
    else
      var init := table[..|table| - 1];
      var last := |table| - 1;
      var best := SelectLatest(init, q, now);
      assert forall j :: 0 <= j < |init| ==> init[j] == table[j];
      if Candidate(table[last], q, now) && (best.None? || table[last].createdAt > table[best.value].createdAt)
      then Some(last)
      else best
  }

  /** `update({ is_verified: true }).eq("id", id)`: every record with this id
      is marked verified. */
  function MarkVerified(table: seq<OtpRecord>, id: string): (r: seq<OtpRecord>)
    ensures |r| == |table|
    ensures forall j :: 0 <= j < |table| && table[j].id == id ==> r[j] == table[j].(isVerified := true)
    ensures forall j :: 0 <= j < |table| && table[j].id != id ==> r[j] == table[j]
  {
    seq(|table|, j requires 0 <= j < |table| => if table[j].id == id then table[j].(isVerified := true) else table[j])
  }

  /** `verifyOTP`. Demo mode accepts exactly "123456". Otherwise the latest
      candidate record is looked up (`lookup` is how that query ended) and,
      when there is one, marked verified; `markApplied` says whether that
      update took effect, and the call reports success either way. */
  function VerifyOtp(configured: bool, table: seq<OtpRecord>, q: OtpQuery, now: int,
                     lookup: Link, markApplied: bool): (r: (seq<OtpRecord>, Outcome))
    ensures !configured ==> r.0 == table && (r.1.success <==> q.otp == DemoOtp)
    ensures !configured && !r.1.success ==> r.1.message == "Invalid OTP. Use 123456 for demo."
    ensures configured && lookup == Threw ==> r == (table, Outcome(false, "Failed to verify OTP"))
    ensures configured && lookup != Threw ==>
      (r.1.success <==> lookup == Answered && !NoCandidate(table, q, now))
    ensures configured && !r.1.success ==> r.0 == table
    ensures configured && lookup == Errored ==> r.1 == Outcome(false, "Invalid or expired OTP")
    ensures configured && r.1.success ==> r.1.message == "OTP verified successfully"
    ensures configured && lookup == Answered && NoCandidate(table, q, now) ==>
      r == (table, Outcome(false, "Invalid or expired OTP"))
    ensures !configured && r.1.success ==> r.1.message == "OTP verified successfully (Demo mode)"
    ensures configured && r.1.success ==>
      && SelectLatest(table, q, now).Some?
      && r.0 == (if markApplied then MarkVerified(table, table[SelectLatest(table, q, now).value].id) else table)
  {
    if !configured then
      if q.otp == DemoOtp then (table, Outcome(true, "OTP verified successfully (Demo mode)"))
      else (table, Outcome(false, "Invalid OTP. Use 123456 for demo."))
    else
      match lookup
      case Threw => (table, Outcome(false, "Failed to verify OTP"))
      case Errored => (table, Outcome(false, "Invalid or expired OTP"))
      case Answered =>
        match SelectLatest(table, q, now)
        case None => (table, Outcome(false, "Invalid or expired OTP"))
        case Some(i) =>
          var table' := if markApplied then MarkVerified(table, table[i].id) else table;
          (table', Outcome(true, "OTP verified successfully"))
  }

  /** A code is single-use: once a verification succeeds and its update
      applies, the chosen record is no longer a candidate. */
  lemma VerifiedRecordIsSpent(table: seq<OtpRecord>, q: OtpQuery, now: int)
    requires VerifyOtp(true, table, q, now, Answered, true).1.success
    ensures SelectLatest(table, q, now).Some?
    ensures var i := SelectLatest(table, q, now).value;
            var after := VerifyOtp(true, table, q, now, Answered, true).0;
            i < |after| && after[i] == table[i].(isVerified := true) && !Candidate(after[i], q, now)
  {
  }

  /** When the chosen record was the only candidate, a second verification
      with the same code, now or later, fails. */
  lemma {:induction false} SecondVerifyFails(table: seq<OtpRecord>, q: OtpQuery, now: int, later: int,
                                             lookup: Link, markApplied: bool)
    requires VerifyOtp(true, table, q, now, Answered, true).1.success
    requires forall j :: 0 <= j < |table| && Candidate(table[j], q, now) ==> j == SelectLatest(table, q, now).value
    requires now <= later
    ensures !VerifyOtp(true, VerifyOtp(true, table, q, now, Answered, true).0, q, later, lookup, markApplied).1.success
  {
    var i := SelectLatest(table, q, now).value;
    var after := MarkVerified(table, table[i].id);
    assert VerifyOtp(true, table, q, now, Answered, true).0 == after;
    forall j | 0 <= j < |after|
      ensures !Candidate(after[j], q, later)
    {
      if table[j].id == table[i].id {
        assert after[j].isVerified;
      } else {
        assert after[j] == table[j];
        assert j != i;
        assert !Candidate(table[j], q, now);
      }
    }
    assert NoCandidate(after, q, later);
  }

  /** A code just sent verifies with the same phone, code and purpose at any
      moment before it expires (by the client clock that set its expiry),
      and when every older record was created before the database stamped
      this one it is the record chosen. */
  lemma {:induction false} SendThenVerify(table: seq<OtpRecord>, phone: string, purpose: string,
                                          otp: string, id: string, now: int, createdAt: int, at: int)
    requires at < now + OtpLifetime
    ensures var sent := SendOtp(true, table, phone, purpose, otp, id, now, createdAt, Answered).0;
            VerifyOtp(true, sent, OtpQuery(phone, otp, purpose), at, Answered, true).1.success
    ensures (forall j :: 0 <= j < |table| ==> table[j].createdAt < createdAt) ==>
            var sent := SendOtp(true, table, phone, purpose, otp, id, now, createdAt, Answered).0;
            SelectLatest(sent, OtpQuery(phone, otp, purpose), at) == Some(|table|)
  {
    var sent := SendOtp(true, table, phone, purpose, otp, id, now, createdAt, Answered).0;
    var q := OtpQuery(phone, otp, purpose);
    assert Candidate(sent[|table|], q, at);
    var pick := SelectLatest(sent, q, at);
    if forall j :: 0 <= j < |table| ==> table[j].createdAt < createdAt {
      assert IsLatest(sent, q, at, pick.value);
    }
  }

  /** An expired record never verifies, whatever else is in the table. */
  lemma ExpiredNeverChosen(table: seq<OtpRecord>, q: OtpQuery, now: int, i: nat)
    requires i < |table| && table[i].expiresAt <= now
    ensures SelectLatest(table, q, now) != Some(i)
  {
  }

  // ---------------------------------------------------------------------
  // Registration, login and logout
  // ---------------------------------------------------------------------

  /** The fields `registerUser` receives; the optional ones may be absent. */
  datatype RegisterData = RegisterData(
    email: string,
    password: string,
    phone: string,
    fullName: string,
    username: string,
    userType: string,
    businessName: Option<string>,
    businessType: Option<string>,
    companyName: Option<string>,
    productCategories: Option<seq<string>>,
    address: string,
    city: string,
    pincode: string,
    businessDescription: Option<string>)

  datatype ProfileRow = ProfileRow(id: string, userType: string, fullName: string, username: string, phone: string, email: string)

  datatype VendorRow = VendorRow(id: string, businessName: Option<string>, businessType: Option<string>,
                                 address: string, city: string, pincode: string)

  datatype SupplierRow = SupplierRow(id: string, companyName: Option<string>, productCategories: Option<seq<string>>,
                                     address: string, city: string, pincode: string, businessDescription: Option<string>)

  /** The three profile tables registration writes to. */
  datatype Tables = Tables(profiles: seq<ProfileRow>, vendors: seq<VendorRow>, suppliers: seq<SupplierRow>)

  /** A helper's answer that may carry the signed-in user's id. */
  datatype UserOutcome = UserOutcome(success: bool, message: string, userId: Option<string>)

  /** How `auth.signUp` ended: an error, no user in the answer, or a new user. */
  datatype SignUp = SignUpError | NoUser | SignedUp(userId: string)

  const DemoUserId: string := "demo-user-id"

  /** `registerUser`. Demo mode succeeds with the demo user and writes
      nothing. Otherwise the auth user is created, then the `profiles` row,
      then the vendor or supplier row; `profileInsert` and `detailInsert` are
      the outcomes of the two inserts. The first failure ends the call with
      the generic message, keeping whatever was already written. */
  function RegisterUser(configured: bool, db: Tables, data: RegisterData, signUp: SignUp,
                        profileInsert: bool, detailInsert: bool): (r: (Tables, UserOutcome))
    ensures !configured ==> r == (db, UserOutcome(true, "Registration successful (Demo mode)", Some(DemoUserId)))
    ensures configured ==>
      (r.1.success <==> signUp.SignedUp? && profileInsert && detailInsert)
    ensures configured && r.1.success ==> r.1 == UserOutcome(true, "Registration successful", Some(signUp.userId))
    ensures configured && !r.1.success ==> r.1 == UserOutcome(false, "Registration failed. Please try again.", None)
    ensures configured && !(signUp.SignedUp? && profileInsert) ==> r.0 == db
    ensures r.0.profiles == db.profiles || (signUp.SignedUp? && profileInsert && r.0.profiles == db.profiles + [ProfileRow(signUp.userId, data.userType, data.fullName, data.username, data.phone, data.email)])
    ensures r.0.vendors != db.vendors ==> r.1.success && data.userType == "vendor"
    ensures r.0.suppliers != db.suppliers ==> r.1.success && data.userType != "vendor"
    ensures !detailInsert ==> r.0.vendors == db.vendors && r.0.suppliers == db.suppliers
    ensures configured && r.1.success && data.userType == "vendor" ==>
      && r.0.vendors == db.vendors + [VendorRow(signUp.userId, data.businessName, data.businessType,
                                                data.address, data.city, data.pincode)]
      && r.0.suppliers == db.suppliers
    ensures configured && r.1.success && data.userType != "vendor" ==>
      && r.0.suppliers == db.suppliers + [SupplierRow(signUp.userId, data.companyName, data.productCategories,
                                                      data.address, data.city, data.pincode,
                                                      data.businessDescription)]
      && r.0.vendors == db.vendors
  {
    if !configured then (db, UserOutcome(true, "Registration successful (Demo mode)", Some(DemoUserId)))
    else
      var failed := UserOutcome(false, "Registration failed. Please try again.", None);
      match signUp
      case SignUpError => (db, failed)
      case NoUser => (db, failed)
      case SignedUp(uid) =>
        if !profileInsert then (db, failed)
        else
          var profile := ProfileRow(uid, data.userType, data.fullName, data.username, data.phone, data.email);
          var db1 := db.(profiles := db.profiles + [profile]);
          if !detailInsert then (db1, failed)
          else if data.userType == "vendor" then
            var row := VendorRow(uid, data.businessName, data.businessType, data.address, data.city, data.pincode);
            (db1.(vendors := db1.vendors + [row]), UserOutcome(true, "Registration successful", Some(uid)))
          else
            var row := SupplierRow(uid, data.companyName, data.productCategories, data.address, data.city,
                                   data.pincode, data.businessDescription);
            (db1.(suppliers := db1.suppliers + [row]), UserOutcome(true, "Registration successful", Some(uid)))
  }

  /** A successful registration leaves exactly one new `profiles` row and
      exactly one new detail row for the user, in the table matching the
      user type; a failure of the detail insert leaves the profile row
      behind without a detail row. */
  lemma RegisterWrites(db: Tables, data: RegisterData, signUp: SignUp, profileInsert: bool, detailInsert: bool)
    requires signUp.SignedUp? && profileInsert
    ensures var r := RegisterUser(true, db, data, signUp, profileInsert, detailInsert);
            && |r.0.profiles| == |db.profiles| + 1 && r.0.profiles[|db.profiles|].id == signUp.userId
            && (detailInsert <==> |r.0.vendors| + |r.0.suppliers| == |db.vendors| + |db.suppliers| + 1)
            && (detailInsert && data.userType == "vendor" ==> r.0.vendors[|db.vendors|].id == signUp.userId)
            && (detailInsert && data.userType != "vendor" ==> r.0.suppliers[|db.suppliers|].id == signUp.userId)
  {
  }

  /** `loginUser`. Demo mode succeeds with the demo user. Otherwise
      `signIn` is the password sign-in: the id of the user it signed in, or
      `None` when it reported an error or threw. */
  function LoginUser(configured: bool, email: string, password: string, signIn: Option<string>): (r: UserOutcome)
    ensures !configured ==> r == UserOutcome(true, "Login successful (Demo mode)", Some(DemoUserId))
    ensures configured ==> (r.success <==> signIn.Some?) && r.userId == signIn
    ensures configured && !r.success ==> r.message == "Invalid credentials. Please check your email and password."
    ensures configured && r.success ==> r.message == "Login successful"
  {
    if !configured then UserOutcome(true, "Login successful (Demo mode)", Some(DemoUserId))
    else match signIn
      case None => UserOutcome(false, "Invalid credentials. Please check your email and password.", None)
      case Some(uid) => UserOutcome(true, "Login successful", Some(uid))
  }

  /** `logoutUser`: `signOut` is whether the sign-out went through. */
  function LogoutUser(configured: bool, signOut: bool): (r: Outcome)
    ensures !configured ==> r.success
    ensures configured ==> (r.success <==> signOut)
    ensures !r.success ==> r.message == "Logout failed"
    ensures !configured ==> r.message == "Logout successful (Demo mode)"
    ensures configured && r.success ==> r.message == "Logout successful"
  {
    if !configured then Outcome(true, "Logout successful (Demo mode)")
    else if signOut then Outcome(true, "Logout successful")
    else Outcome(false, "Logout failed")
  }
}
