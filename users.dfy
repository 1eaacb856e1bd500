/**
 * The custom user model: role constants and choices, the role predicates and
 * the bounds on the user's columns (users/models.py).
 */
module Users {
  import opened Wrappers

  const MODERATOR: string := "moderator"
  const ADMIN: string := "admin"
  const USER: string := "user"

  /** The (stored value, label) choices of the role column, in declaration order. */
  const ROLE: seq<(string, string)> := [(MODERATOR, "moderator"), (ADMIN, "admin"), (USER, "user")]

  const ROLE_MAX_LENGTH: nat := 10
  const EMAIL_MAX_LENGTH: nat := 150
  const BIO_MAX_LENGTH: nat := 2000
  /** The bound the framework's abstract user puts on username, first_name and last_name. */
  const USERNAME_MAX_LENGTH: nat := 150

  /** A row of the user table. `bio` is nullable; `isSuperuser` is the framework's flag. */
  datatype CustomUser = CustomUser(
    id: nat,
    username: string,
    email: string,
    role: string,
    bio: Option<string>,
    firstName: string,
    lastName: string,
    isSuperuser: bool)

  /** The value the role column is created with. */
  function DefaultRole(): (r: string)
    ensures IsRoleChoice(r) && r == ROLE[2].0
  {
    assert ROLE[2].0 == USER;
    USER
  }

  /** `s` is the stored value of one of the role choices. */
  predicate IsRoleChoice(s: string)
  {
    exists i :: 0 <= i < |ROLE| && ROLE[i].0 == s
  }

  predicate IsModerator(u: CustomUser) { u.role == MODERATOR }
  predicate IsAdmin(u: CustomUser) { u.role == ADMIN }
  predicate IsUser(u: CustomUser) { u.role == USER }

  /** A user as the ORM creates it from a username and an email: every other column at its default. */
  function NewUser(id: nat, username: string, email: string): (u: CustomUser)
    ensures u.id == id && u.username == username && u.email == email
    ensures u.role == DefaultRole() && u.bio == None && !u.isSuperuser
    ensures IsUser(u) && !IsAdmin(u) && !IsModerator(u)
  {
    CustomUser(id, username, email, DefaultRole(), None, "", "", false)
  }

  /** The lengths every column of `u` must respect. */
  predicate FieldsFit(u: CustomUser)
  {
    && |u.username| <= USERNAME_MAX_LENGTH
    && |u.email| <= EMAIL_MAX_LENGTH
    && |u.role| <= ROLE_MAX_LENGTH
    && (u.bio.Some? ==> |u.bio.value| <= BIO_MAX_LENGTH)
    && |u.firstName| <= USERNAME_MAX_LENGTH
    && |u.lastName| <= USERNAME_MAX_LENGTH
  }

  /** The role choices are exactly the three constants, and they are distinct. */
  lemma RoleChoicesAreThree(s: string)
    ensures IsRoleChoice(s) <==> s == MODERATOR || s == ADMIN || s == USER
    ensures MODERATOR != ADMIN && ADMIN != USER && MODERATOR != USER
  {
    if s == MODERATOR { assert ROLE[0].0 == s; }
    if s == ADMIN { assert ROLE[1].0 == s; }
    if s == USER { assert ROLE[2].0 == s; }
  }

  /** A user whose role is one of the choices has exactly one of the three role predicates. */
  lemma ExactlyOneRole(u: CustomUser)
    requires IsRoleChoice(u.role)
    ensures IsModerator(u) ==> !IsAdmin(u) && !IsUser(u)
    ensures IsAdmin(u) ==> !IsModerator(u) && !IsUser(u)
    ensures IsUser(u) ==> !IsModerator(u) && !IsAdmin(u)
    ensures IsModerator(u) || IsAdmin(u) || IsUser(u)
  {
  }

  /** A role value outside the choices (possible only in a row written past validation) has none of them. */
  lemma NoRoleOutsideChoices(u: CustomUser)
    requires !IsRoleChoice(u.role)
    ensures !IsModerator(u) && !IsAdmin(u) && !IsUser(u)
  {
    RoleChoicesAreThree(u.role);
  }

  /** Every role choice fits the role column. */
  lemma RoleChoicesFitColumn(s: string)
    requires IsRoleChoice(s)
    ensures |s| <= ROLE_MAX_LENGTH
  {
  }

  /** A freshly created user fits every column bound whenever its username and email do. */
  lemma NewUserFits(id: nat, username: string, email: string)
    requires |username| <= USERNAME_MAX_LENGTH && |email| <= EMAIL_MAX_LENGTH
    ensures FieldsFit(NewUser(id, username, email))
  {
  }
}
