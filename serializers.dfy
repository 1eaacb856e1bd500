/**
 * The user-facing serializers (api/serializers.py): registration with its
 * length bounds and get-or-create, the user serializers' partial update with
 * `role` writable or read-only, and the token request's required fields.
 */
module Serializers {
  import opened Wrappers
  import opened Tables
  import opened Users
  import opened Schema

  const REGISTRATION_USERNAME_MAX_LENGTH: nat := 128
  const REGISTRATION_EMAIL_MAX_LENGTH: nat := 150

  /** Request data: field name to submitted value. */
  type Data = map<string, string>

  /**
   * The framework validators whose rules this model does not restate: the
   * username character pattern and the email address syntax.
   */
  datatype Validators = Validators(username: string -> bool, email: string -> bool)

  /** A required, non-blank field of at most `maxLength` characters that `valid` accepts. */
  predicate RequiredFieldOk(data: Data, name: string, maxLength: nat, valid: string -> bool)
  {
    name in data && data[name] != "" && |data[name]| <= maxLength && valid(data[name])
  }

  /** RegistrationSerializer.is_valid: yields the validated (username, email) or the first failing field. */
  function ValidateRegistration(data: Data, v: Validators): (r: Result<(string, string), string>)
    ensures r.Success? <==>
      RequiredFieldOk(data, "username", REGISTRATION_USERNAME_MAX_LENGTH, v.username)
      && RequiredFieldOk(data, "email", REGISTRATION_EMAIL_MAX_LENGTH, v.email)
    ensures r.Success? ==> (r.value == (data["username"], data["email"])
                        && |r.value.0| <= REGISTRATION_USERNAME_MAX_LENGTH
                        && |r.value.1| <= REGISTRATION_EMAIL_MAX_LENGTH)
    ensures r.Failure? ==> r.error in {"username", "email"}
  {
    if !RequiredFieldOk(data, "username", REGISTRATION_USERNAME_MAX_LENGTH, v.username) then Failure("username")
    else if !RequiredFieldOk(data, "email", REGISTRATION_EMAIL_MAX_LENGTH, v.email) then Failure("email")
    else Success((data["username"], data["email"]))
  }

  /**
   * RegistrationSerializer.create: get_or_create on (username, email). An
   * existing row with both values is returned as it is; otherwise a row is
   * created, and the IntegrityError of a clash on the unique username or
   * email is re-raised as a ValidationError.
   */
  method Create(st: Store, username: string, email: string) returns (r: Result<CustomUser, DbError>)
    requires st.Valid()
    modifies st`users, st`nextId
    ensures st.Valid()
    ensures FindUserByCredentials(old(st.users), username, email).Some? ==>
      (r == Success(FindUserByCredentials(old(st.users), username, email).value)
       && st.users == old(st.users) && st.nextId == old(st.nextId))
    ensures r.Failure? <==>
      FindUserByCredentials(old(st.users), username, email).None?
      && (UsernameTaken(old(st.users), username) || EmailTaken(old(st.users), email))
    ensures r.Failure? ==> r.error.ValidationError? && st.users == old(st.users) && st.nextId == old(st.nextId)
    ensures r.Success? && FindUserByCredentials(old(st.users), username, email).None? ==>
      (r.value == NewUser(old(st.nextId), username, email) && st.users == old(st.users) + [r.value]
       && st.nextId == old(st.nextId) + 1)
    ensures r.Success? ==> r.value in st.users && r.value.username == username && r.value.email == email
  {
    var found := FindUserByCredentials(st.users, username, email);
    if found.Some? {
      return Success(found.value);
    }
    var created := st.CreateUser(username, email);
    if created.Failure? {
      return Failure(ValidationError("username or email"));
    }
    r := created;
  }

  /** A registered user is found again by its (username, email): registering it a second time returns it and adds no row. */
  lemma RegistrationIsIdempotent(users: seq<CustomUser>, u: CustomUser)
    requires Pairwise(users, UsersDistinct) && u in users
    ensures FindUserByCredentials(users, u.username, u.email) == Some(u)
  {
  }

  // ---------------------------------------------------------------------------
  // BaseUserSerializer / UserSerializer partial update

  /** BaseUserSerializer writes `role`; UserSerializer declares it read-only. */
  datatype UserSerializerClass = BaseUserSerializer | UserSerializer

  /** An optional field, when present, fits `maxLength`, is non-blank unless allowed, and passes `valid`. */
  predicate OptionalFieldOk(data: Data, name: string, maxLength: nat, allowBlank: bool, valid: string -> bool)
  {
    name in data ==> |data[name]| <= maxLength && (allowBlank || data[name] != "") && valid(data[name])
  }

  function Pick(data: Data, name: string, current: string): string
  {
    if name in data then data[name] else current
  }

  predicate RoleWritable(kind: UserSerializerClass) { kind == BaseUserSerializer }

  /** Every present, writable field passes its column's validation. */
  predicate UserDataOk(data: Data, kind: UserSerializerClass, v: Validators)
  {
    && OptionalFieldOk(data, "username", USERNAME_MAX_LENGTH, false, v.username)
    && OptionalFieldOk(data, "email", EMAIL_MAX_LENGTH, false, v.email)
    && (RoleWritable(kind) && "role" in data ==> IsRoleChoice(data["role"]))
    && OptionalFieldOk(data, "bio", BIO_MAX_LENGTH, true, (s: string) => true)
    && OptionalFieldOk(data, "first_name", USERNAME_MAX_LENGTH, true, (s: string) => true)
    && OptionalFieldOk(data, "last_name", USERNAME_MAX_LENGTH, true, (s: string) => true)
  }

  /**
   * A partial update of `u` through a user serializer: unknown and read-only
   * keys are ignored, every present writable field is validated and then
   * written. The uniqueness of username and email is checked against the
   * table when the row is saved (Store.SaveUser).
   */
  function UpdateUser(u: CustomUser, data: Data, kind: UserSerializerClass, v: Validators): (r: Result<CustomUser, DbError>)
    ensures r.Success? <==> UserDataOk(data, kind, v)
    ensures r.Failure? ==> r.error.ValidationError?
    ensures r.Success? ==> r.value.id == u.id && r.value.isSuperuser == u.isSuperuser
    ensures r.Success? ==> (r.value.username == Pick(data, "username", u.username)
                        && r.value.email == Pick(data, "email", u.email)
                        && r.value.firstName == Pick(data, "first_name", u.firstName)
                        && r.value.lastName == Pick(data, "last_name", u.lastName)
                        && r.value.bio == (if "bio" in data then Some(data["bio"]) else u.bio))
    ensures r.Success? ==> r.value.role == (if RoleWritable(kind) && "role" in data then data["role"] else u.role)
    ensures r.Success? && IsRoleChoice(u.role) ==> IsRoleChoice(r.value.role)
    ensures r.Success? && FieldsFit(u) ==> FieldsFit(r.value)
  {
    if !OptionalFieldOk(data, "username", USERNAME_MAX_LENGTH, false, v.username) then Failure(ValidationError("username"))
    else if !OptionalFieldOk(data, "email", EMAIL_MAX_LENGTH, false, v.email) then Failure(ValidationError("email"))
    else if RoleWritable(kind) && "role" in data && !IsRoleChoice(data["role"]) then Failure(ValidationError("role"))
    else if !OptionalFieldOk(data, "bio", BIO_MAX_LENGTH, true, (s: string) => true) then Failure(ValidationError("bio"))
    else if !OptionalFieldOk(data, "first_name", USERNAME_MAX_LENGTH, true, (s: string) => true) then Failure(ValidationError("first_name"))
    else if !OptionalFieldOk(data, "last_name", USERNAME_MAX_LENGTH, true, (s: string) => true) then Failure(ValidationError("last_name"))
    else
      var role := if RoleWritable(kind) && "role" in data then data["role"] else u.role;
      assert IsRoleChoice(role) ==> |role| <= ROLE_MAX_LENGTH by {
        if IsRoleChoice(role) { RoleChoicesFitColumn(role); }
      }
      Success(u.(
        username := Pick(data, "username", u.username),
        email := Pick(data, "email", u.email),
        role := role,
        bio := if "bio" in data then Some(data["bio"]) else u.bio,
        firstName := Pick(data, "first_name", u.firstName),
        lastName := Pick(data, "last_name", u.lastName)))
  }

  /** An update through UserSerializer never changes the role. */
  lemma UserSerializerKeepsRole(u: CustomUser, data: Data, v: Validators)
    requires UpdateUser(u, data, UserSerializer, v).Success?
    ensures UpdateUser(u, data, UserSerializer, v).value.role == u.role
  {
  }

  /** Declaring `role` read-only is the same as leaving it out of the submitted data. */
  lemma ReadOnlyRoleIsDroppedRole(u: CustomUser, data: Data, v: Validators)
    ensures UpdateUser(u, data, UserSerializer, v) == UpdateUser(u, data - {"role"}, BaseUserSerializer, v)
  {
  }

  // ---------------------------------------------------------------------------
  // TokenSerializer

  /** TokenSerializer.is_valid: both fields are required and non-blank; yields (username, confirmation_code). */
  function ValidateTokenRequest(data: Data): (r: Option<(string, string)>)
    ensures r.Some? <==> ("username" in data && data["username"] != ""
                      && "confirmation_code" in data && data["confirmation_code"] != "")
    ensures r.Some? ==> r.value == (data["username"], data["confirmation_code"])
  {
    if "username" in data && data["username"] != "" && "confirmation_code" in data && data["confirmation_code"] != ""
    then Some((data["username"], data["confirmation_code"]))
    else None
  }
}
