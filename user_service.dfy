/**
 * Accounts (services/user_service.py): logging in with a role that treats
 * "doctor" and "physician" as the same, the checks `create_user` makes
 * before it inserts an account, and the three demo accounts of a fresh store.
 */
module UserService {
  import opened Common
  import opened Tables
  import opened Records

  /** `hash_password`: the digest of the password text (SHA-256 itself is not modelled). */
  function HashPassword(password: string): PasswordHash {
    Sha256(password)
  }

  /** `(role or "").strip().lower()` */
  function NormalizedRole(role: Option<string>): string {
    Lower(Strip(role.GetOr("")))
  }

  /** The roles a page or a login asking for `required` accepts. */
  function AllowedRoles(required: string): (r: set<string>)
    ensures required in r
    ensures required == "doctor" || required == "physician" ==> r == {"doctor", "physician"}
    ensures required != "doctor" && required != "physician" ==> r == {required}
  {
    if required in {"doctor", "physician"} then {"doctor", "physician"} else {required}
  }

  /** Whether an account whose role is `actual` may act as `required`, both normalised. */
  predicate RoleAccepted(required: Option<string>, actual: Option<string>) {
    NormalizedRole(actual) in AllowedRoles(NormalizedRole(required))
  }

  /** The two clinician role names are interchangeable, in both positions. */
  lemma ClinicianSynonyms(actual: string)
    ensures NormalizedRole(Some(actual)) in AllowedRoles("doctor")
        <==> NormalizedRole(Some(actual)) in AllowedRoles("physician")
    ensures "doctor" in AllowedRoles("physician") && "physician" in AllowedRoles("doctor")
  {
  }

  /** Any other required role must be matched exactly after normalisation. */
  lemma {:induction false} OtherRolesExact(required: string, actual: string)
    requires required != "doctor" && required != "physician"
    ensures actual in AllowedRoles(required) <==> actual == required
  {
  }

  /** `User.username == username` */
  function UserNamed(username: string): User -> bool {
    (u: User) => u.username == username
  }

  /** `db.query(User).filter(User.username == username).first()` */
  function ByUsername(users: seq<User>, username: string): Option<User> {
    First(users, UserNamed(username))
  }

  /** `authenticate_user`: the account, when the name, the password and the role all agree. */
  function AuthenticateUser(users: seq<User>, username: string, password: string, role: Option<string>): (r: Option<User>)
    ensures r.Some? ==> r.value in users && r.value.username == username
    ensures r.Some? ==> r.value.passwordHash == HashPassword(password) && RoleAccepted(role, Some(r.value.role))
    ensures (forall i :: 0 <= i < |users| ==> users[i].username != username) ==> r.None?
  {
    match ByUsername(users, username)
    case None => None
    case Some(u) =>
      if u.passwordHash != HashPassword(password) then None
      else if !RoleAccepted(role, Some(u.role)) then None
      else Some(u)
  }

  /** With unique names, logging in succeeds exactly for the stored password and an accepted role. */
  lemma AuthenticateIff(users: seq<User>, i: nat, password: string, role: Option<string>)
    requires UsernamesUnique(users) && i < |users|
    ensures AuthenticateUser(users, users[i].username, password, role) == Some(users[i])
        <==> users[i].passwordHash == HashPassword(password) && RoleAccepted(role, Some(users[i].role))
  {
    var named := UserNamed(users[i].username);
    assert named(users[i]);
    var j := FirstIndex(users, named).value;
    assert users[j].username == users[i].username;
    assert j == i;
    assert ByUsername(users, users[i].username) == Some(users[i]);
  }

  predicate UsernamesUnique(users: seq<User>) {
    forall i, j :: 0 <= i < j < |users| ==> users[i].username != users[j].username
  }

  datatype CreateUserError =
      InvalidRole
    | EmptyUsername
    | PatientCodeRequired
    | BadPatientCodeFormat
    | PatientNotFound
    | PatientUserExists
    | UsernameExists

  /** `re.fullmatch(r"P\d{3}", code)`, with ASCII digits. */
  predicate IsPatientCode(code: string) {
    |code| == 4 && code[0] == 'P' && IsAsciiDigit(code[1]) && IsAsciiDigit(code[2]) && IsAsciiDigit(code[3])
  }

  /** The roles an account can be created with. */
  const CreatableRoles: set<string> := {"technician", "physician", "patient"}

  /** The account `create_user` inserts, or the error it raises, given the tables it reads. */
  function CreateUserOutcome(
    patients: seq<Patient>, users: seq<User>,
    role: Option<string>, username: Option<string>, password: string,
    patientCode: Option<string>, fullName: Option<string>): (r: Result<User, CreateUserError>)
    requires KeysIncreasing(users, UserKey)
    ensures r.Ok? ==> NormalizedRole(role) in CreatableRoles
    ensures r.Ok? ==> r.value == User(NextKey(users, UserKey), r.value.username, HashPassword(password), NormalizedRole(role), fullName)
    ensures r.Ok? ==> r.value.username != [] && ByUsername(users, r.value.username).None?
    ensures r.Ok? && r.value.role == "patient" ==>
      IsPatientCode(r.value.username) && First(patients, PatientWithCode(r.value.username)).Some?
    ensures NormalizedRole(role) !in CreatableRoles ==> r == Err(InvalidRole)
  {
    var role' := NormalizedRole(role);
    var name := Strip(username.GetOr(""));
    if role' !in CreatableRoles then Err(InvalidRole)
    else if name == [] then Err(EmptyUsername)
    else if role' == "patient" then PatientAccount(patients, users, name, password, patientCode, fullName)
    else StaffAccount(users, name, role', password, fullName)
  }

  /** `(patient_code or username).strip().upper()` */
  function AccountCode(patientCode: Option<string>, name: string): string {
    Upper(Strip(if patientCode.Some? && patientCode.value != [] then patientCode.value else name))
  }

  /** The patient branch of `create_user`: the account is named by a registered, unused patient code. */
  function PatientAccount(
    patients: seq<Patient>, users: seq<User>, name: string, password: string,
    patientCode: Option<string>, fullName: Option<string>): (r: Result<User, CreateUserError>)
    requires KeysIncreasing(users, UserKey)
    ensures r.Ok? ==> r.value == User(NextKey(users, UserKey), AccountCode(patientCode, name), HashPassword(password), "patient", fullName)
    ensures r.Ok? ==> IsPatientCode(r.value.username) && First(patients, PatientWithCode(r.value.username)).Some?
    ensures r.Ok? ==> ByUsername(users, r.value.username).None?
  {
    var code := AccountCode(patientCode, name);
    if code == [] then Err(PatientCodeRequired)
    else if !IsPatientCode(code) then Err(BadPatientCodeFormat)
    else if First(patients, PatientWithCode(code)).None? then Err(PatientNotFound)
    else if ByUsername(users, code).Some? then Err(PatientUserExists)
    else Ok(User(NextKey(users, UserKey), code, HashPassword(password), "patient", fullName))
  }

  /** The technician and physician branch of `create_user`: the trimmed name must be free. */
  function StaffAccount(users: seq<User>, name: string, role: string, password: string, fullName: Option<string>)
    : (r: Result<User, CreateUserError>)
    requires KeysIncreasing(users, UserKey)
    ensures r.Ok? <==> ByUsername(users, name).None?
    ensures r.Ok? ==> r.value == User(NextKey(users, UserKey), name, HashPassword(password), role, fullName)
  {
    if ByUsername(users, name).Some? then Err(UsernameExists)
    else Ok(User(NextKey(users, UserKey), name, HashPassword(password), role, fullName))
  }

  /** "doctor" is a login synonym but not a role an account can be created with. */
  lemma DoctorIsNotCreatable(patients: seq<Patient>, users: seq<User>, role: Option<string>, username: Option<string>,
                             password: string, patientCode: Option<string>, fullName: Option<string>)
    requires KeysIncreasing(users, UserKey)
    requires NormalizedRole(role) == "doctor"
    ensures CreateUserOutcome(patients, users, role, username, password, patientCode, fullName) == Err(InvalidRole)
  {
    assert "doctor" !in CreatableRoles;
  }

  /** Appending an account whose name is free, under the next key, keeps the table sound. */
  lemma {:induction false} InsertKeepsTableSound(users: seq<User>, u: User)
    requires KeysIncreasing(users, UserKey) && UsernamesUnique(users)
    requires ByUsername(users, u.username).None? && u.id == NextKey(users, UserKey)
    ensures UsernamesUnique(users + [u]) && KeysIncreasing(users + [u], UserKey)
  {
    var t := users + [u];
    forall i, j | 0 <= i < j < |t| ensures t[i].username != t[j].username {
      if j == |users| {
        assert !UserNamed(u.username)(users[i]);
      }
    }
    AppendKeepsOrder(users, UserKey, u);
  }

  /** A created account keeps the table's names unique and its keys increasing. */
  lemma CreateKeepsTableSound(
    patients: seq<Patient>, users: seq<User>,
    role: Option<string>, username: Option<string>, password: string,
    patientCode: Option<string>, fullName: Option<string>)
    requires KeysIncreasing(users, UserKey) && UsernamesUnique(users)
    requires CreateUserOutcome(patients, users, role, username, password, patientCode, fullName).Ok?
    ensures var u := CreateUserOutcome(patients, users, role, username, password, patientCode, fullName).value;
      UsernamesUnique(users + [u]) && KeysIncreasing(users + [u], UserKey)
  {
    InsertKeepsTableSound(users, CreateUserOutcome(patients, users, role, username, password, patientCode, fullName).value);
  }

  /**
   * `create_user`: inserts the account `CreateUserOutcome` describes, or
   * raises with the store unchanged.
   */
  method CreateUser(db: Database, role: Option<string>, username: Option<string>, password: string,
                    patientCode: Option<string>, fullName: Option<string>)
    returns (r: Result<User, CreateUserError>)
    requires db.Valid() && UsernamesUnique(db.users)
    modifies db
    ensures db.Valid() && UsernamesUnique(db.users)
    ensures r == CreateUserOutcome(old(db.patients), old(db.users), role, username, password, patientCode, fullName)
    ensures r.Ok? ==> db.users == old(db.users) + [r.value]
    ensures r.Err? ==> db.users == old(db.users)
    ensures db.patients == old(db.patients) && db.visits == old(db.visits)
    ensures db.treatments == old(db.treatments) && db.nihssItems == old(db.nihssItems)
  {
    r := CreateUserOutcome(db.patients, db.users, role, username, password, patientCode, fullName);
    if r.Ok? {
      AppendUser(db, r.value);
    }
  }

  /** Inserts an account whose name is free under the next key, at the end of the users table. */
  method AppendUser(db: Database, u: User)
    requires db.Valid() && UsernamesUnique(db.users)
    requires ByUsername(db.users, u.username).None? && u.id == NextKey(db.users, UserKey)
    modifies db
    ensures db.Valid() && UsernamesUnique(db.users)
    ensures db.users == old(db.users) + [u]
    ensures db.patients == old(db.patients) && db.visits == old(db.visits)
    ensures db.treatments == old(db.treatments) && db.nihssItems == old(db.nihssItems)
  {
    InsertKeepsTableSound(db.users, u);
    db.users := db.users + [u];
  }

  /** The three demo accounts, all with password "pass123". */
  function DemoUsers(): seq<User> {
    [ User(1, "tech1", HashPassword("pass123"), "technician", None),
      User(2, "doc1", HashPassword("pass123"), "physician", None),
      User(3, "patient1", HashPassword("pass123"), "patient", None) ]
  }

  /** The users table after `ensure_default_users`. */
  function WithDefaultUsers(users: seq<User>): (r: seq<User>)
    ensures users != [] ==> r == users
    ensures users == [] ==> |r| == 3 && r[1].role == "physician"
    ensures UsernamesUnique(r) <==> UsernamesUnique(users) || users == []
  {
    if users != [] then users else DemoUsers()
  }

  /** A second call finds the table filled and changes nothing. */
  lemma DefaultUsersIdempotent(users: seq<User>)
    ensures WithDefaultUsers(WithDefaultUsers(users)) == WithDefaultUsers(users)
  {
  }

  /** `ensure_default_users` */
  method EnsureDefaultUsers(db: Database)
    requires db.Valid()
    modifies db
    ensures db.Valid()
    ensures db.users == WithDefaultUsers(old(db.users))
    ensures db.patients == old(db.patients) && db.visits == old(db.visits)
    ensures db.treatments == old(db.treatments) && db.nihssItems == old(db.nihssItems)
  {
    if db.users == [] {
      db.users := DemoUsers();
    }
  }
}
