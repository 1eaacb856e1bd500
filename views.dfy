/**
 * Request handling of the API views (api/views.py): which permission and
 * which serializer each viewset selects per method, the order in which the
 * framework applies them, the `/users/me` endpoints, the sign-up and token
 * views, and the lookup chains of the nested review and comment resources.
 */
module Views {
  import opened Wrappers
  import opened Tables
  import opened Users
  import opened Permissions
  import opened Schema
  import opened Serializers

  datatype Status = Ok | BadRequest | Unauthorized | Forbidden | NotFound | MethodNotAllowed | InternalServerError

  function Code(s: Status): nat
  {
    match s
    case Ok => 200
    case BadRequest => 400
    case Unauthorized => 401
    case Forbidden => 403
    case NotFound => 404
    case MethodNotAllowed => 405
    case InternalServerError => 500
  }

  // ---------------------------------------------------------------------------
  // Permission selection and dispatch

  datatype Permission = AllowAny | IsAdminPermission | ModerAdminAuthorPermission | AnonReadOnlyOrIsAdminPermission

  predicate HasPermission(p: Permission, m: Method, r: Requester)
  {
    match p
    case AllowAny => true
    case IsAdminPermission => IsAdminHasPermission(m, r)
    case ModerAdminAuthorPermission => ModerAdminAuthorHasPermission(m, r)
    case AnonReadOnlyOrIsAdminPermission => AnonReadOnlyOrIsAdminHasPermission(m, r)
  }

  /** The resources the router exposes: the viewsets, the `me` action and the two function views. */
  datatype Endpoint = Categories | Genres | Titles | Reviews | Comments | UsersList | UsersMe | Signup | Token

  /** get_permissions of the category, genre and title viewsets: writes need an admin, the rest is open. */
  function AdminForWrites(m: Method): (p: Permission)
    ensures p == IsAdminPermission <==> m == Post || m == Patch || m == Delete
    ensures p != IsAdminPermission ==> p == AllowAny
  {
    if m == Post || m == Patch || m == Delete then IsAdminPermission else AllowAny
  }

  /** The permission the endpoint checks for a request with method `m`. */
  function PermissionFor(e: Endpoint, m: Method): Permission
  {
    match e
    case Categories => AdminForWrites(m)
    case Genres => AdminForWrites(m)
    case Titles => AdminForWrites(m)
    case Reviews => ModerAdminAuthorPermission
    case Comments => ModerAdminAuthorPermission
    case UsersList => IsAdminPermission
    case UsersMe => ModerAdminAuthorPermission
    case Signup => AllowAny
    case Token => AllowAny
  }

  /**
   * The methods with a handler: the routed actions (with HEAD added wherever
   * GET is routed, and OPTIONS from the base view) restricted to the
   * endpoint's http_method_names.
   */
  function AcceptedMethods(e: Endpoint): set<Method>
  {
    match e
    case Categories => {Get, Head, Options, Post, Delete}
    case Genres => {Get, Head, Options, Post, Delete}
    case Titles => {Get, Post, Patch, Delete}
    case Reviews => {Get, Post, Patch, Delete}
    case Comments => {Get, Post, Patch, Delete}
    case UsersList => {Get, Post, Patch, Delete}
    case UsersMe => {Get, Patch}
    case Signup => {Post, Options}
    case Token => {Post, Options}
  }

  datatype Dispatched = Denied(status: Status) | NotAllowed | Handled

  /**
   * The framework checks permissions before it looks the handler up; a denied
   * anonymous request is answered 401, a denied authenticated one 403.
   */
  function Dispatch(e: Endpoint, m: Method, r: Requester): (d: Dispatched)
    ensures d == Handled <==> HasPermission(PermissionFor(e, m), m, r) && m in AcceptedMethods(e)
    ensures d == NotAllowed <==> HasPermission(PermissionFor(e, m), m, r) && m !in AcceptedMethods(e)
    ensures d.Denied? ==> d.status == (if r.Anonymous? then Unauthorized else Forbidden)
  {
    if !HasPermission(PermissionFor(e, m), m, r) then Denied(if r.Anonymous? then Unauthorized else Forbidden)
    else if m !in AcceptedMethods(e) then NotAllowed
    else Handled
  }

  /** The status the framework answers with when the request does not reach a handler. */
  function DispatchStatus(d: Dispatched): Status
    requires d != Handled
  {
    if d.Denied? then d.status else MethodNotAllowed
  }

  /** The endpoints the router gives a detail route (an object key in the path). */
  predicate HasDetailRoute(e: Endpoint)
  {
    e in {Categories, Genres, Titles, Reviews, Comments, UsersList}
  }

  /**
   * The methods with a handler on the detail route: destroy (and OPTIONS) for
   * the create-list-destroy viewsets, retrieve, partial_update and destroy for
   * the model viewsets, within their http_method_names.
   */
  function DetailMethods(e: Endpoint): (ms: set<Method>)
    requires HasDetailRoute(e)
    ensures ms <= AcceptedMethods(e)
    ensures Post !in ms && Put !in ms
  {
    if e == Categories || e == Genres then {Delete, Options} else {Get, Patch, Delete}
  }

  /**
   * A request on the detail route of an object written by `author`. The
   * permission is checked first, then the method is looked up on the detail
   * route; once in the handler, the review and comment viewsets consult the
   * object check, whose refusal the framework answers with 403. The other
   * viewsets keep the framework's allow-all object check.
   */
  function DetailDispatch(e: Endpoint, m: Method, r: Requester, author: nat): (d: Dispatched)
    requires HasDetailRoute(e)
    ensures Dispatch(e, m, r) != Handled ==> d == Dispatch(e, m, r)
    ensures Dispatch(e, m, r) == Handled && m !in DetailMethods(e) ==> d == NotAllowed
    ensures Dispatch(e, m, r) == Handled && m in DetailMethods(e) && !(e == Reviews || e == Comments) ==> d == Handled
    ensures (e == Reviews || e == Comments) && Dispatch(e, m, r) == Handled && m in DetailMethods(e) ==>
      && (d == Handled <==> ModerAdminAuthorHasObjectPermission(m, r, author) == Some(true))
      && (d != Handled ==> d == Denied(Forbidden))
  {
    var d := Dispatch(e, m, r);
    if d != Handled then d
    else if m !in DetailMethods(e) then NotAllowed
    else if !(e == Reviews || e == Comments) then Handled
    else
      ObjectCheckAnswersAfterViewCheck(m, r, author);
      if ModerAdminAuthorHasObjectPermission(m, r, author) == Some(false) then Denied(Forbidden) else Handled
  }

  /** POST has no handler on a detail route: an authenticated author is answered 405, not 403. */
  lemma PostOnDetailNotAllowed(e: Endpoint, u: CustomUser, author: nat)
    requires e == Reviews || e == Comments
    ensures Dispatch(e, Post, Authenticated(u)) == Handled
    ensures DetailDispatch(e, Post, Authenticated(u), author) == NotAllowed
    ensures Code(DispatchStatus(DetailDispatch(e, Post, Authenticated(u), author))) == 405
  {
  }

  /** Titles apply the same method-to-permission rule as categories and genres. */
  lemma TitlesFollowSlugRule(m: Method)
    ensures PermissionFor(Titles, m) == PermissionFor(Categories, m) == PermissionFor(Genres, m)
    ensures PermissionFor(Titles, m) == (if m in {Post, Patch, Delete} then IsAdminPermission else AllowAny)
  {
  }

  /** No endpoint handles PUT. */
  lemma PutNeverHandled(e: Endpoint, r: Requester)
    ensures Dispatch(e, Put, r) != Handled
  {
  }

  /** PUT on titles passes the open permission and is then refused as a method. */
  lemma PutOnTitlesIsMethodNotAllowed(r: Requester)
    ensures Dispatch(Titles, Put, r) == NotAllowed
    ensures Code(DispatchStatus(Dispatch(Titles, Put, r))) == 405
  {
  }

  /** The anonymous user reaches no write handler except sign-up and token; POST, PATCH and DELETE get 401. */
  lemma AnonymousWritesRefused(e: Endpoint, m: Method)
    requires !IsSafe(m) && e != Signup && e != Token
    ensures Dispatch(e, m, Anonymous) != Handled
    ensures m in {Post, Patch, Delete} ==> Dispatch(e, m, Anonymous) == Denied(Unauthorized)
    ensures m in {Post, Patch, Delete} ==> Code(DispatchStatus(Dispatch(e, m, Anonymous))) == 401
  {
  }

  /** An authenticated user who is neither admin nor superuser gets 403 for writes to the catalogue and to users. */
  lemma OnlyAdminsManage(e: Endpoint, m: Method, u: CustomUser)
    requires e in {Categories, Genres, Titles, UsersList} && m in {Post, Patch, Delete}
    requires !IsAdminOrSuperuser(u)
    ensures Dispatch(e, m, Authenticated(u)) == Denied(Forbidden)
    ensures Code(DispatchStatus(Dispatch(e, m, Authenticated(u)))) == 403
  {
  }

  /**
   * An admin or superuser is let through on every accepted method of every
   * endpoint, and on every detail method of every object.
   */
  lemma AdminReachesEveryHandler(e: Endpoint, m: Method, u: CustomUser, author: nat)
    requires IsAdminOrSuperuser(u) && m in AcceptedMethods(e)
    ensures Dispatch(e, m, Authenticated(u)) == Handled
    ensures HasDetailRoute(e) && m in DetailMethods(e) ==> DetailDispatch(e, m, Authenticated(u), author) == Handled
  {
  }

  /** Reads of the catalogue, reviews and comments are open to everyone. */
  lemma ReadsAreOpen(e: Endpoint, m: Method, r: Requester)
    requires e in {Categories, Genres, Titles, Reviews, Comments} && IsSafe(m) && m in AcceptedMethods(e)
    ensures Dispatch(e, m, r) == Handled
  {
  }

  /** HEAD and OPTIONS are outside http_method_names of titles, reviews, comments and users. */
  lemma HeadAndOptionsRefused(e: Endpoint, m: Method, r: Requester)
    requires e in {Titles, Reviews, Comments, UsersList, UsersMe} && (m == Head || m == Options)
    requires HasPermission(PermissionFor(e, m), m, r)
    ensures Dispatch(e, m, r) == NotAllowed
  {
  }

  /** A review or comment may be changed or deleted by its author, a moderator, an admin or a superuser, and no one else. */
  lemma OnlyAuthorOrStaffEdits(e: Endpoint, m: Method, u: CustomUser, author: nat)
    requires (e == Reviews || e == Comments) && (m == Patch || m == Delete)
    ensures DetailDispatch(e, m, Authenticated(u), author) == Handled <==>
      u.id == author || IsModerator(u) || IsAdmin(u) || u.isSuperuser
    ensures DetailDispatch(e, m, Authenticated(u), author) != Handled ==>
      DetailDispatch(e, m, Authenticated(u), author) == Denied(Forbidden)
      && Code(DispatchStatus(DetailDispatch(e, m, Authenticated(u), author))) == 403
  {
  }

  // ---------------------------------------------------------------------------
  // Serializer selection

  datatype TitleSerializerClass = TitleGetSerializer | TitlePostSerializer

  /** TitleViewSet.get_serializer_class. */
  function TitleSerializerFor(m: Method): (c: TitleSerializerClass)
    ensures c == TitleGetSerializer <==> m == Get
  {
    if m == Get then TitleGetSerializer else TitlePostSerializer
  }

  /** Every write the title endpoint handles goes through TitlePostSerializer. */
  lemma TitleWritesUsePostSerializer(m: Method, r: Requester)
    requires Dispatch(Titles, m, r) == Handled && m != Get
    ensures TitleSerializerFor(m) == TitlePostSerializer && m in {Post, Patch, Delete}
  {
  }

  // ---------------------------------------------------------------------------
  // /users/me

  datatype MeResponse = MeResponse(status: Status, user: Option<CustomUser>)

  /** UserViewSet.me: the handler itself answers 401 to the anonymous user. */
  function MeGet(r: Requester): (resp: MeResponse)
    ensures r.Anonymous? ==> resp == MeResponse(Unauthorized, None)
    ensures r.Authenticated? ==> resp == MeResponse(Ok, Some(r.user))
  {
    match r
    case Anonymous => MeResponse(Unauthorized, None)
    case Authenticated(u) => MeResponse(Ok, Some(u))
  }

  /** GET /users/me by the anonymous user passes the permission check and is refused by the handler. */
  lemma AnonymousMeIsUnauthorized()
    ensures ModerAdminAuthorHasPermission(Get, Anonymous)
    ensures Dispatch(UsersMe, Get, Anonymous) == Handled
    ensures MeGet(Anonymous).status == Unauthorized && Code(MeGet(Anonymous).status) == 401
  {
  }

  /** The copy of the request data that patch_self_info hands to the serializer: `role` taken out. */
  function WithoutRole(data: Data): (r: Data)
    ensures "role" !in r
    ensures r.Keys == data.Keys - {"role"}
    ensures forall k :: k in r ==> r[k] == data[k]
  {
    data - {"role"}
  }

  /** Taking `role` out twice is taking it out once. */
  lemma WithoutRoleIdempotent(data: Data)
    ensures WithoutRole(WithoutRole(data)) == WithoutRole(data)
  {
  }

  /** No row other than `u`'s own uses `u`'s username or email. */
  predicate UniqueAmongOthers(users: seq<CustomUser>, u: CustomUser)
  {
    forall w :: w in users && w.id != u.id ==> w.username != u.username && w.email != u.email
  }

  /**
   * UserViewSet.patch_self_info for the authenticated requester (the
   * permission check lets no one else in): the request data is copied, `role`
   * is popped from the copy, and the user is partially updated through
   * BaseUserSerializer and saved. A validation failure and a clash on the
   * unique username or email both answer 400.
   */
  method PatchSelfInfo(st: Store, r: Requester, data: Data, v: Validators) returns (resp: MeResponse)
    requires st.Valid()
    requires r.Authenticated? && r.user in st.users
    modifies st`users
    ensures st.Valid()
    ensures resp.status == Ok || resp.status == BadRequest
    ensures resp.status == Ok <==>
      && UpdateUser(r.user, WithoutRole(data), BaseUserSerializer, v).Success?
      && UniqueAmongOthers(old(st.users), UpdateUser(r.user, WithoutRole(data), BaseUserSerializer, v).value)
    ensures resp.status == Ok ==>
      && resp.user == Some(UpdateUser(r.user, WithoutRole(data), BaseUserSerializer, v).value)
      && resp.user.value.role == r.user.role
      && resp.user.value.id == r.user.id
      && (forall w :: w in st.users <==> w == resp.user.value || (w in old(st.users) && w.id != r.user.id))
    ensures resp.status == BadRequest ==> resp.user == None && st.users == old(st.users)
  {
    var copy := data;
    if "role" in copy {
      copy := copy - {"role"};
    }
    assert copy == WithoutRole(data);
    var updated := UpdateUser(r.user, copy, BaseUserSerializer, v);
    if updated.Failure? {
      return MeResponse(BadRequest, None);
    }
    assert r.user.id in Keys(st.users, UserId);
    var saved := st.SaveUser(updated.value);
    if saved.Failure? {
      return MeResponse(BadRequest, None);
    }
    resp := MeResponse(Ok, Some(saved.value));
  }

  /** The `/users/me` update behaves as an update through the role-read-only UserSerializer. */
  lemma PatchSelfInfoIsReadOnlyRole(u: CustomUser, data: Data, v: Validators)
    ensures UpdateUser(u, WithoutRole(data), BaseUserSerializer, v) == UpdateUser(u, data, UserSerializer, v)
  {
  }

  // ---------------------------------------------------------------------------
  // Sign-up and token

  datatype SignupResponse = SignupResponse(status: Status, data: Option<(string, string)>)

  /**
   * Whether get-or-create accepts `credentials` against the user table: the
   * pair is already registered, or neither value is taken.
   */
  predicate RegistrationAccepted(users: seq<CustomUser>, credentials: (string, string))
  {
    || FindUserByCredentials(users, credentials.0, credentials.1).Some?
    || (!UsernameTaken(users, credentials.0) && !EmailTaken(users, credentials.1))
  }

  /**
   * The registration view: validate, then get-or-create. The confirmation
   * code and the e-mail that carries it are not part of this model.
   */
  method Registration(st: Store, data: Data, v: Validators) returns (resp: SignupResponse)
    requires st.Valid()
    modifies st`users, st`nextId
    ensures st.Valid()
    ensures resp.status == Ok || resp.status == BadRequest
    ensures resp.status == Ok <==>
      ValidateRegistration(data, v).Success? && RegistrationAccepted(old(st.users), ValidateRegistration(data, v).value)
    ensures resp.status == BadRequest ==> resp.data == None && st.users == old(st.users) && st.nextId == old(st.nextId)
    ensures resp.status == Ok ==>
      var (username, email) := ValidateRegistration(data, v).value;
      && resp.data == Some((username, email))
      && (FindUserByCredentials(old(st.users), username, email).Some? ==>
            st.users == old(st.users) && st.nextId == old(st.nextId))
      && (FindUserByCredentials(old(st.users), username, email).None? ==>
            st.users == old(st.users) + [NewUser(old(st.nextId), username, email)] && st.nextId == old(st.nextId) + 1)
  {
    var valid := ValidateRegistration(data, v);
    if valid.Failure? {
      return SignupResponse(BadRequest, None);
    }
    var (username, email) := valid.value;
    var user := Create(st, username, email);
    if user.Failure? {
      return SignupResponse(BadRequest, None);
    }
    resp := SignupResponse(Ok, Some((username, email)));
  }

  datatype TokenResponse = AccessToken(user: CustomUser) | TokenError(status: Status)

  /**
   * get_token: validate the request, find the user by username (404), and
   * issue an access token only if `checkToken`, the framework's
   * confirmation-code check, accepts the code for that user (else 400).
   */
  function GetToken(users: seq<CustomUser>, data: Data, checkToken: (CustomUser, string) -> bool): (r: TokenResponse)
    ensures ValidateTokenRequest(data).None? ==> r == TokenError(BadRequest)
    ensures ValidateTokenRequest(data).Some? && FindUserByUsername(users, data["username"]).None? ==>
      r == TokenError(NotFound)
    ensures r.AccessToken? <==>
      && ValidateTokenRequest(data).Some?
      && FindUserByUsername(users, data["username"]).Some?
      && checkToken(FindUserByUsername(users, data["username"]).value, data["confirmation_code"])
    ensures r.AccessToken? ==>
      r.user in users && r.user.username == data["username"] && checkToken(r.user, data["confirmation_code"])
    ensures r.TokenError? ==> r.status in {BadRequest, NotFound}
  {
    match ValidateTokenRequest(data)
    case None => TokenError(BadRequest)
    case Some((username, code)) =>
      match FindUserByUsername(users, username)
      case None => TokenError(NotFound)
      case Some(u) => if checkToken(u, code) then AccessToken(u) else TokenError(BadRequest)
  }

  /** An unknown username is answered 404 whatever the code; a known one whose code fails, 400. */
  lemma TokenOutcomes(users: seq<CustomUser>, data: Data, checkToken: (CustomUser, string) -> bool, u: CustomUser)
    requires Pairwise(users, UsersDistinct) && u in users
    requires "username" in data && data["username"] == u.username
    requires "confirmation_code" in data && data["confirmation_code"] != ""
    requires u.username != ""
    ensures !checkToken(u, data["confirmation_code"]) ==> GetToken(users, data, checkToken) == TokenError(BadRequest)
    ensures checkToken(u, data["confirmation_code"]) ==> GetToken(users, data, checkToken) == AccessToken(u)
  {
  }

  // ---------------------------------------------------------------------------
  // Nested reviews and comments

  /** ReviewViewSet.get_queryset: 404 for an unknown title, else its reviews newest first. */
  function ReviewList(titles: seq<Title>, reviews: seq<Review>, titleId: nat): (r: Result<seq<Review>, Status>)
    ensures r.Failure? <==> titleId !in Keys(titles, TitleId)
    ensures r.Failure? ==> r.error == NotFound
    ensures r.Success? ==> forall x :: x in r.value <==> x in reviews && x.title == titleId
    ensures r.Success? ==> forall x :: multiset(r.value)[x] == if x.title == titleId then multiset(reviews)[x] else 0
    ensures r.Success? && NewestFirst(reviews, ReviewDate) ==> NewestFirst(r.value, ReviewDate)
  {
    if FindTitle(titles, titleId).None? then Failure(NotFound)
    else Success(ReviewsOfTitle(reviews, titleId))
  }

  /**
   * CommentViewSet.get_queryset: the title is looked up first (404), then the
   * review by its key alone (404), and the review's comments are listed.
   */
  function CommentList(titles: seq<Title>, reviews: seq<Review>, comments: seq<Comment>, titleId: nat, reviewId: nat)
    : (r: Result<seq<Comment>, Status>)
    ensures titleId !in Keys(titles, TitleId) ==> r == Failure(NotFound)
    ensures r.Failure? <==> titleId !in Keys(titles, TitleId) || reviewId !in Keys(reviews, ReviewId)
    ensures r.Failure? ==> r.error == NotFound
    ensures r.Success? ==> forall c :: c in r.value <==> c in comments && c.review == reviewId
    ensures r.Success? ==> forall c :: multiset(r.value)[c] == if c.review == reviewId then multiset(comments)[c] else 0
    ensures r.Success? && NewestFirst(comments, CommentDate) ==> NewestFirst(r.value, CommentDate)
  {
    if FindTitle(titles, titleId).None? then Failure(NotFound)
    else if FindReview(reviews, reviewId).None? then Failure(NotFound)
    else Success(CommentsOfReview(comments, reviewId))
  }

  /**
   * The title in the path only has to exist: a review of another title is
   * found under it all the same.
   */
  lemma CommentListIgnoresReviewTitle(
    titles: seq<Title>, reviews: seq<Review>, comments: seq<Comment>, t1: nat, t2: nat, reviewId: nat)
    requires t1 in Keys(titles, TitleId) && t2 in Keys(titles, TitleId)
    ensures CommentList(titles, reviews, comments, t1, reviewId) == CommentList(titles, reviews, comments, t2, reviewId)
  {
  }

  /** A concrete case: review 7 of title 1 is reached through the path of title 2. */
  lemma CommentListCrossTitleExample()
    ensures CommentList([Title(1, "a", 2000, "", None), Title(2, "b", 2001, "", None)],
                        [Review(7, "t", 3, 5, 0, 1)], [Comment(9, "c", 3, 0, 7)], 2, 7)
            == Success([Comment(9, "c", 3, 0, 7)])
  {
    var titles := [Title(1, "a", 2000, "", None), Title(2, "b", 2001, "", None)];
    var reviews := [Review(7, "t", 3, 5, 0, 1)];
    var comments := [Comment(9, "c", 3, 0, 7)];
    assert FindTitle(titles, 2) == Some(titles[1]) by { assert titles[1..] == [titles[1]]; }
    assert FindReview(reviews, 7) == Some(reviews[0]);
    assert comments[1..] == [];
    assert CommentsOfReview(comments, 7) == comments;
  }

  /**
   * ReviewViewSet create: the framework validates the submitted data first
   * (the score validators of the model field; 400), then perform_create looks
   * the title up (404) and saves the review with the requester as author. A
   * second review of the same title by the same author reaches the
   * database's unique constraint, whose IntegrityError nothing in the view
   * catches.
   */
  method CreateReview(st: Store, author: CustomUser, titleId: nat, score: int, text: string, now: int)
    returns (r: Result<Review, Status>)
    requires st.Valid() && author in st.users
    modifies st`reviews, st`nextId
    ensures st.Valid()
    ensures ValidateScore(score, st.minScore, st.maxScore).Some? ==> r == Failure(BadRequest)
    ensures ValidateScore(score, st.minScore, st.maxScore) == None && titleId !in Keys(st.titles, TitleId) ==>
      r == Failure(NotFound)
    ensures (ValidateScore(score, st.minScore, st.maxScore) == None && titleId in Keys(st.titles, TitleId)
             && ReviewExists(old(st.reviews), titleId, author.id)) ==> r == Failure(InternalServerError)
    ensures r.Success? <==>
      && ValidateScore(score, st.minScore, st.maxScore) == None
      && titleId in Keys(st.titles, TitleId)
      && !ReviewExists(old(st.reviews), titleId, author.id)
    ensures r.Success? ==>
      && r.value == Review(old(st.nextId), text, author.id, score, now, titleId)
      && st.reviews == InsertByDate(old(st.reviews), r.value, ReviewDate)
      && st.nextId == old(st.nextId) + 1
    ensures r.Failure? ==> st.reviews == old(st.reviews) && st.nextId == old(st.nextId)
  {
    if ValidateScore(score, st.minScore, st.maxScore).Some? {
      return Failure(BadRequest);
    }
    if FindTitle(st.titles, titleId).None? {
      return Failure(NotFound);
    }
    assert author.id in Keys(st.users, UserId);
    var saved := st.AddReview(author.id, titleId, score, text, now);
    match saved
    case Success(rv) => r := Success(rv);
    case Failure(e) => r := Failure(InternalServerError);
  }

  /**
   * CommentViewSet.perform_create: the title is looked up (404), then the
   * review by its key (404), and the comment is saved on that review with the
   * requester as author.
   */
  method CreateComment(st: Store, author: CustomUser, titleId: nat, reviewId: nat, text: string, now: int)
    returns (r: Result<Comment, Status>)
    requires st.Valid() && author in st.users
    modifies st`comments, st`nextId
    ensures st.Valid()
    ensures r.Failure? <==> titleId !in Keys(st.titles, TitleId) || reviewId !in Keys(st.reviews, ReviewId)
    ensures r.Failure? ==> r.error == NotFound && st.comments == old(st.comments) && st.nextId == old(st.nextId)
    ensures r.Success? ==>
      && r.value == Comment(old(st.nextId), text, author.id, now, reviewId)
      && st.comments == InsertByDate(old(st.comments), r.value, CommentDate)
      && st.nextId == old(st.nextId) + 1
  {
    if FindTitle(st.titles, titleId).None? {
      return Failure(NotFound);
    }
    if FindReview(st.reviews, reviewId).None? {
      return Failure(NotFound);
    }
    assert author.id in Keys(st.users, UserId);
    var saved := st.AddComment(author.id, reviewId, text, now);
    match saved
    case Success(c) => r := Success(c);
    case Failure(_) => r := Failure(NotFound);
  }
}
