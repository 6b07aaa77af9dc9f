/**
 * The backend's identity rules (app/auth.py): the "link, conflict or create"
 * rule of POST /register over the users table, and the resolution of a
 * request's bearer token to a user row.
 *
 * The users table is a sequence of rows in the order the database scans them,
 * so that "the first row matching a filter" (SQLAlchemy's `.first()`) is
 * determined. Decoding a JWT (section 7.2 of RFC 7519) is not modelled: the
 * decoded payload is an input.
 */
module Identity {
  import opened Wrappers
  import opened Text

  /** A row of the users table; `id` stands for the row's UUID primary key. */
  datatype UserRecord = UserRecord(id: nat, externalId: int, username: string, email: string)

  /** The body of POST /register. */
  datatype UserCreate = UserCreate(externalId: int, username: string, email: string)

  /** An HTTPException: status code and detail text. */
  datatype HttpError = HttpError(status: int, detail: string)

  const InvalidTokenDetail := "Invalid token"
  const ExpiredTokenDetail := "Token has expired"
  const MissingSubDetail := "Invalid token: 'sub' claim not found"
  const NonIntegerSubDetail := "Invalid token: 'sub' claim is not a valid integer"
  const UnknownUserDetail := "User associated with this token not found in DB"
  const InternalErrorDetail := "Internal server error during authentication"

  function ConflictDetail(email: string): string {
    "Email '" + email + "' is already registered. Please log in with the original method or use a different email."
  }

  // ---- Queries over the users table ----

  /** The two column filters the rules query by. */
  datatype Filter = ExternalIdIs(externalId: int) | EmailIs(email: string)

  predicate Matches(u: UserRecord, f: Filter) {
    match f
    case ExternalIdIs(x) => u.externalId == x
    case EmailIs(e) => u.email == e
  }

  predicate Exists(rows: seq<UserRecord>, f: Filter) {
    exists i :: 0 <= i < |rows| && Matches(rows[i], f)
  }

  /** `query(User).filter(...).first()`: the index of the first matching row. */
  function First(rows: seq<UserRecord>, f: Filter): (r: Option<nat>)
    ensures r.Some? ==> r.value < |rows| && Matches(rows[r.value], f)
    ensures r.Some? ==> forall j :: 0 <= j < r.value ==> !Matches(rows[j], f)
    ensures r.None? <==> !Exists(rows, f)
  {
    if |rows| == 0 then None
    else if Matches(rows[0], f) then Some(0)
    else match First(rows[1..], f)
      case None => None
      case Some(i) =>
        assert rows[i + 1] == rows[1..][i];
        Some(i + 1)
  }

  predicate UniqueIds(rows: seq<UserRecord>) {
    forall i, j :: 0 <= i < j < |rows| ==> rows[i].id != rows[j].id
  }

  predicate UniqueExternalIds(rows: seq<UserRecord>) {
    forall i, j :: 0 <= i < j < |rows| ==> rows[i].externalId != rows[j].externalId
  }

  predicate IdUnused(rows: seq<UserRecord>, id: nat) {
    forall i :: 0 <= i < |rows| ==> rows[i].id != id
  }

  // ---- POST /register ----

  /**
   * register_or_login_oauth_user: the result and the new table, given the
   * UUID `freshId` that a newly created row would receive.
   */
  function RegisterOrLogin(rows: seq<UserRecord>, data: UserCreate, freshId: nat)
    : (out: (Result<UserRecord, HttpError>, seq<UserRecord>))
    // An external-id match is a login: that row takes the supplied email and
    // username and is returned; nothing is added and no other row changes.
    ensures Exists(rows, ExternalIdIs(data.externalId)) ==>
      && out.0.Ok?
      && out.0.value.externalId == data.externalId
      && out.0.value.email == data.email
      && out.0.value.username == data.username
      && exists i :: 0 <= i < |rows| && rows[i].externalId == data.externalId
                     && out.0.value.id == rows[i].id && out.1 == rows[i := out.0.value]
    // No external-id match but the email is taken: 409, table unchanged.
    ensures !Exists(rows, ExternalIdIs(data.externalId)) && Exists(rows, EmailIs(data.email)) ==>
      out == (Err(HttpError(409, ConflictDetail(data.email))), rows)
    // Neither matches: exactly one row is appended, carrying the supplied data.
    ensures !Exists(rows, ExternalIdIs(data.externalId)) && !Exists(rows, EmailIs(data.email)) ==>
      var created := UserRecord(freshId, data.externalId, data.username, data.email);
      out == (Ok(created), rows + [created])
  {
    match First(rows, ExternalIdIs(data.externalId))
    case Some(i) =>
      var linked := rows[i].(email := data.email, username := data.username);
      (Ok(linked), rows[i := linked])
    case None =>
      if First(rows, EmailIs(data.email)).Some? then
        (Err(HttpError(409, ConflictDetail(data.email))), rows)
      else
        var created := UserRecord(freshId, data.externalId, data.username, data.email);
        (Ok(created), rows + [created])
  }

  /** Calling /register again with the same data changes nothing and answers the same. */
  lemma RegisterTwiceIsRegisterOnce(rows: seq<UserRecord>, data: UserCreate, freshId: nat, laterId: nat)
    ensures var (r1, t1) := RegisterOrLogin(rows, data, freshId);
            RegisterOrLogin(t1, data, laterId) == (r1, t1)
  {
    var (r1, t1) := RegisterOrLogin(rows, data, freshId);
    var x := ExternalIdIs(data.externalId);
    match First(rows, x)
    case Some(i) =>
      var linked := rows[i].(email := data.email, username := data.username);
      assert t1 == rows[i := linked];
      assert Matches(t1[i], x);
      forall j | 0 <= j < i ensures !Matches(t1[j], x) {
        assert t1[j] == rows[j];
      }
      assert First(t1, x) == Some(i);
      assert t1[i].(email := data.email, username := data.username) == linked;
      assert t1[i := linked] == t1;
    case None =>
      if First(rows, EmailIs(data.email)).None? {
        var n := |rows|;
        assert Matches(t1[n], x);
        forall j | 0 <= j < n ensures !Matches(t1[j], x) {
          assert t1[j] == rows[j];
        }
        assert First(t1, x) == Some(n);
        assert t1[n := t1[n]] == t1;
      }
  }

  /** /register never gives two rows the same external id, and with a fresh UUID never repeats an id. */
  lemma RegisterKeepsRowsUnique(rows: seq<UserRecord>, data: UserCreate, freshId: nat)
    requires UniqueIds(rows) && UniqueExternalIds(rows) && IdUnused(rows, freshId)
    ensures var t := RegisterOrLogin(rows, data, freshId).1;
            UniqueIds(t) && UniqueExternalIds(t)
  {
    var t := RegisterOrLogin(rows, data, freshId).1;
    if First(rows, ExternalIdIs(data.externalId)).None? && First(rows, EmailIs(data.email)).None? {
      assert t == rows + [t[|rows|]];
      forall i, j | 0 <= i < j < |t| ensures t[i].id != t[j].id && t[i].externalId != t[j].externalId {
        if j == |rows| {
          assert !Matches(rows[i], ExternalIdIs(data.externalId));
        } else {
          assert t[i] == rows[i] && t[j] == rows[j];
        }
      }
    }
  }

  /** The users table as the register endpoint updates it in place. */
  class UserTable {
    var rows: seq<UserRecord>

    ghost predicate Valid()
      reads this
    {
      UniqueIds(rows) && UniqueExternalIds(rows)
    }

    constructor ()
      ensures Valid() && rows == []
    {
      rows := [];
    }

    /** register_or_login_oauth_user; `freshId` is the UUID the database would give a new row. */
    method RegisterOrLoginOAuthUser(data: UserCreate, freshId: nat) returns (r: Result<UserRecord, HttpError>)
      requires Valid() && IdUnused(rows, freshId)
      modifies this
      ensures Valid()
      ensures (r, rows) == RegisterOrLogin(old(rows), data, freshId)
    {
      RegisterKeepsRowsUnique(rows, data, freshId);
      var byExternalId := First(rows, ExternalIdIs(data.externalId));
      if byExternalId.Some? {
        var i := byExternalId.value;
        rows := rows[i := rows[i].(email := data.email)];
        rows := rows[i := rows[i].(username := data.username)];
        r := Ok(rows[i]);
        assert rows == old(rows)[i := old(rows)[i].(email := data.email, username := data.username)];
      } else {
        var byEmail := First(rows, EmailIs(data.email));
        if byEmail.Some? {
          r := Err(HttpError(409, ConflictDetail(data.email)));
        } else {
          var created := UserRecord(freshId, data.externalId, data.username, data.email);
          rows := rows + [created];
          r := Ok(created);
        }
      }
    }
  }

  // ---- get_current_user ----

  /** A value of a decoded JSON payload, as Python holds it. Floats are not modelled. */
  datatype PyValue =
    | PyNone
    | PyBool(b: bool)
    | PyInt(i: int)
    | PyStr(s: string)
    | PyList(items: seq<PyValue>)
    | PyDict(entries: map<string, PyValue>)

  type Payload = map<string, PyValue>

  /** Python's truth value of a payload value. */
  predicate PyTruthy(v: PyValue) {
    match v
    case PyNone => false
    case PyBool(b) => b
    case PyInt(i) => i != 0
    case PyStr(s) => s != ""
    case PyList(items) => items != []
    case PyDict(entries) => entries != map[]
  }

  /** int(v); None stands for the ValueError or TypeError it raises. */
  function PyIntOf(v: PyValue): (r: Option<int>)
    // Only integers, booleans and strings convert; None, lists and dicts raise TypeError.
    ensures r.Some? ==> v.PyInt? || v.PyBool? || v.PyStr?
    ensures v.PyInt? ==> r == Some(v.i)
    ensures v.PyBool? ==> r == Some(if v.b then 1 else 0)
    ensures v.PyStr? ==> r == ParsePyInt(v.s)
  {
    match v
    case PyInt(i) => Some(i)
    case PyBool(b) => Some(if b then 1 else 0)
    case PyStr(s) => ParsePyInt(s)
    case _ => None
  }

  /** dict.get(key): None when the key is absent. */
  function PayloadGet(p: Payload, key: string): PyValue {
    if key in p then p[key] else PyNone
  }

  datatype DecodeOptions = DecodeOptions(verifySignature: bool, verifyExp: bool)

  datatype JwtOutcome = Decoded(payload: Payload) | InvalidJwt | ExpiredSignature

  /**
   * jwt.decode. `parsed` is the payload of the token when it is well formed
   * (None when it is not), `signatureValid` whether its signature checks and
   * `now` the current time in seconds. The "exp" check (section 4.1.4 of
   * RFC 7519) runs only when the options ask for it.
   */
  function JwtDecode(parsed: Option<Payload>, signatureValid: bool, options: DecodeOptions, now: int): (r: JwtOutcome)
    ensures r.ExpiredSignature? ==> options.verifyExp
    ensures r.Decoded? ==> parsed == Some(r.payload)
    ensures !options.verifySignature && !options.verifyExp ==> (r.Decoded? <==> parsed.Some?)
  {
    if parsed.None? then InvalidJwt
    else if options.verifySignature && !signatureValid then InvalidJwt
    else if options.verifyExp && "exp" in parsed.value then
      match PyIntOf(parsed.value["exp"])
      case None => InvalidJwt
      case Some(exp) => if exp <= now then ExpiredSignature else Decoded(parsed.value)
    else Decoded(parsed.value)
  }

  /**
   * The checks inside get_current_user's try block, with the exceptions they
   * raise: the 'sub' claim (section 4.1.2 of RFC 7519) must be truthy, convert
   * with int(), and name the external id of a row.
   */
  function ResolveSubject(rows: seq<UserRecord>, payload: Payload): (r: Result<UserRecord, HttpError>)
    ensures r.Err? ==> r.error.status == 401 || r.error.status == 404
    ensures r.Ok? <==>
      PyTruthy(PayloadGet(payload, "sub")) && PyIntOf(PayloadGet(payload, "sub")).Some?
      && Exists(rows, ExternalIdIs(PyIntOf(PayloadGet(payload, "sub")).value))
    ensures r.Ok? ==> r.value in rows && Some(r.value.externalId) == PyIntOf(PayloadGet(payload, "sub"))
  {
    var sub := PayloadGet(payload, "sub");
    if !PyTruthy(sub) then Err(HttpError(401, MissingSubDetail))
    else match PyIntOf(sub)
      case None => Err(HttpError(401, NonIntegerSubDetail))
      case Some(x) =>
        match First(rows, ExternalIdIs(x))
        case None => Err(HttpError(404, UnknownUserDetail))
        case Some(i) => Ok(rows[i])
  }

  /**
   * get_current_user as written: the signature and the expiry are not
   * verified, and the blanket `except Exception` turns every HTTPException
   * raised inside the try into a 500.
   */
  function GetCurrentUser(rows: seq<UserRecord>, parsed: Option<Payload>, signatureValid: bool, now: int)
    : (r: Result<UserRecord, HttpError>)
    ensures parsed.None? <==> r == Err(HttpError(401, InvalidTokenDetail))
    ensures parsed.Some? && r.Err? ==> r.error == HttpError(500, InternalErrorDetail)
    ensures r != Err(HttpError(401, ExpiredTokenDetail))
    ensures r.Ok? ==> parsed.Some? && r == ResolveSubject(rows, parsed.value)
  {
    match JwtDecode(parsed, signatureValid, DecodeOptions(false, false), now)
    case InvalidJwt => Err(HttpError(401, InvalidTokenDetail))
    case ExpiredSignature => Err(HttpError(401, ExpiredTokenDetail))
    case Decoded(payload) =>
      match ResolveSubject(rows, payload)
      case Ok(user) => Ok(user)
      case Err(_) => Err(HttpError(500, InternalErrorDetail))
  }

  /** Neither the signature nor the clock can change the answer: expiry is never checked. */
  lemma CurrentUserIgnoresSignatureAndClock(rows: seq<UserRecord>, parsed: Option<Payload>,
                                            sig1: bool, now1: int, sig2: bool, now2: int)
    ensures GetCurrentUser(rows, parsed, sig1, now1) == GetCurrentUser(rows, parsed, sig2, now2)
  {
  }

  /**
   * A token whose 'sub' is the decimal text of a row's external id, within
   * int()'s digit limit, resolves to the first such row.
   */
  lemma SubjectTextResolvesToUser(rows: seq<UserRecord>, payload: Payload, i: nat, sig: bool, now: int)
    requires i < |rows| && forall j :: 0 <= j < i ==> rows[j].externalId != rows[i].externalId
    requires |NatToString(Magnitude(rows[i].externalId))| <= MaxStrDigits
    requires PayloadGet(payload, "sub") == PyStr(IntToString(rows[i].externalId))
    ensures GetCurrentUser(rows, Some(payload), sig, now) == Ok(rows[i])
  {
    SubjectTextNamesRow(rows, payload, i);
  }

  /** The first row with a given external id is found by the filter. */
  lemma FirstWithExternalId(rows: seq<UserRecord>, i: nat)
    requires i < |rows| && forall j :: 0 <= j < i ==> rows[j].externalId != rows[i].externalId
    ensures First(rows, ExternalIdIs(rows[i].externalId)) == Some(i)
  {
    assert Matches(rows[i], ExternalIdIs(rows[i].externalId));
  }

  lemma SubjectTextNamesRow(rows: seq<UserRecord>, payload: Payload, i: nat)
    requires i < |rows| && forall j :: 0 <= j < i ==> rows[j].externalId != rows[i].externalId
    requires |NatToString(Magnitude(rows[i].externalId))| <= MaxStrDigits
    requires PayloadGet(payload, "sub") == PyStr(IntToString(rows[i].externalId))
    ensures ResolveSubject(rows, payload) == Ok(rows[i])
  {
    ParsePyIntOfIntToString(rows[i].externalId);
    FirstWithExternalId(rows, i);
  }

  /**
   * What the handler evidently means to do: let the HTTPExceptions raised
   * inside the try pass through unchanged, and map only unexpected errors to 500.
   */
  function GetCurrentUserCorrected(rows: seq<UserRecord>, parsed: Option<Payload>, signatureValid: bool, now: int)
    : (r: Result<UserRecord, HttpError>)
    ensures parsed.None? ==> r == Err(HttpError(401, InvalidTokenDetail))
    ensures parsed.Some? ==> r == ResolveSubject(rows, parsed.value)
    ensures r.Err? ==> r.error.status == 401 || r.error.status == 404
  {
    match JwtDecode(parsed, signatureValid, DecodeOptions(false, false), now)
    case InvalidJwt => Err(HttpError(401, InvalidTokenDetail))
    case ExpiredSignature => Err(HttpError(401, ExpiredTokenDetail))
    case Decoded(payload) => ResolveSubject(rows, payload)
  }

  /** The two agree on every success; they differ exactly on the errors raised inside the try. */
  lemma CorrectedAgreesOnSuccess(rows: seq<UserRecord>, parsed: Option<Payload>, sig: bool, now: int)
    ensures GetCurrentUser(rows, parsed, sig, now).Ok? <==> GetCurrentUserCorrected(rows, parsed, sig, now).Ok?
    ensures GetCurrentUser(rows, parsed, sig, now).Ok? ==>
            GetCurrentUser(rows, parsed, sig, now) == GetCurrentUserCorrected(rows, parsed, sig, now)
  {
  }

  /** A payload without 'sub' gets 500 as written, where 401 "'sub' claim not found" was meant. */
  lemma MissingSubjectIsReportedAsServerError(rows: seq<UserRecord>)
    ensures GetCurrentUser(rows, Some(map[]), false, 0) == Err(HttpError(500, InternalErrorDetail))
    ensures GetCurrentUserCorrected(rows, Some(map[]), false, 0) == Err(HttpError(401, MissingSubDetail))
  {
  }
}
