# api_yamdb: access rules, schema and user flows

This project models the core of api_yamdb, a review platform backend. Users register with a username and an email, receive a confirmation code and exchange it for an access token. Titles (works) belong to a category and to genres; users review titles and comment on reviews. The model covers:

- **Roles** (`users.dfy`): the three role values, the default role, the role predicates and the column bounds of the custom user model.
- **Permissions** (`permissions.dfy`): the three permission classes, as predicates over the request method, the requester (anonymous or an authenticated user row) and, for the object check, the object's author.
- **Schema** (`schema.dfy`): one record per model, the year and score validators, and a `Store` class. The class holds every table as a sequence of rows. Its invariant `Valid()` is the schema's constraints, plus the validated score range and the row order that each insert maintains:
  - unique primary keys, usernames, emails and slugs;
  - one review per (title, author);
  - one link row per (title, genre) when both ends are set;
  - foreign keys;
  - the score range, which the field validators enforce;
  - newest-first order of reviews and comments, which is the models' default query order.

  Every insert and delete method keeps that invariant and states its whole new table, including the cascade and set-null deletes.
- **Serializers** (`serializers.dfy`): registration validation and get-or-create, the partial update of the user serializers with `role` writable or read-only, and the token request.
- **Views** (`views.dfy`): the order in which the framework applies permission checks and method dispatch, the permission and serializer each viewset picks per method, `/users/me`, sign-up, `get_token`, and the lookup chains of the nested review and comment resources.
- **Helpers**: `tables.dfy` holds generic operations on row sequences (filter, map, insert by date, pairwise constraints) and their lemmas; `wrappers.dfy` holds `Option` and `Result`.

Behaviour the code has and the model keeps:

- Permissions are checked before the handler is looked up. PUT on titles therefore passes `AllowAny` and is then refused with 405.
- A refused anonymous request gets 401 and a refused authenticated one gets 403 (see the authentication assumption under "## Left out").
- `http_method_names` of titles, reviews, comments and users leave out HEAD and OPTIONS, so those get 405 there.
- The anonymous user has no `is_moderator` attribute. The object check would raise for it on an unsafe method, but the view-level check always refuses that request first (`Permissions.ObjectCheckAnswersAfterViewCheck`).
- The comment endpoints check that the title in the path exists, then look the review up by its key alone. A review of another title is reached all the same (`Views.CommentListIgnoresReviewTitle`, `Views.CommentListCrossTitleExample`).
- `UserViewSet` uses `BaseUserSerializer`, whose `role` is writable. The read-only `role` of `UserSerializer` is used by no view. `/users/me` gets the same effect by taking `role` out of its copy of the data (`Views.PatchSelfInfoIsReadOnlyRole`).
- The three `is_admin_or_superuser` helpers have one and the same body. They are modelled once, as `Permissions.IsAdminOrSuperuser`.
- `unique_title_genre` treats NULLs as distinct, as SQL does. Two link rows of one title that both lack a genre are allowed (`Schema.LinksWithoutGenreMayRepeat`).

## Model

| member | source | states |
|---|---|---|
| Users.DefaultRole | api_yamdb/users/models.py:28-33 | the default role is one of the choices, the stored value of the third choice (`user`) |
| Users.NewUser | api_yamdb/users/models.py:28-45 | a new user has the default role, no bio and no superuser flag; `is_user` holds and `is_admin`, `is_moderator` do not |
| Users.RoleChoicesAreThree | api_yamdb/users/models.py:7-15 | a string is a role choice iff it is `moderator`, `admin` or `user`, and the three are distinct |
| Users.ExactlyOneRole | api_yamdb/users/models.py:35-45 | for a role among the choices exactly one of `is_moderator`, `is_admin`, `is_user` holds |
| Users.NoRoleOutsideChoices | api_yamdb/users/models.py:35-45 | a role value outside the choices satisfies none of the three predicates |
| Users.RoleChoicesFitColumn | api_yamdb/users/models.py:28-31 | every role choice fits the 10-character role column |
| Users.NewUserFits | api_yamdb/users/models.py:17-33 | a new user whose username and email fit their bounds fits every column bound (email 150, bio 2000, role 10) |
| Users.IsModerator | api_yamdb/users/models.py:35-37 | `is_moderator`: the role column equals `moderator` |
| Users.IsAdmin | api_yamdb/users/models.py:39-41 | `is_admin`: the role column equals `admin` |
| Users.IsUser | api_yamdb/users/models.py:43-45 | `is_user`: the role column equals `user` |
| Permissions.IsSafe | api_yamdb/api/permissions.py:17 | the framework's safe methods: GET, HEAD and OPTIONS |
| Permissions.IsAdminOrSuperuser | api_yamdb/api/permissions.py:10-11 | the helper the three classes declare alike (also lines 26-27 and 39-40): role `admin` or the superuser flag |
| Permissions.IsAdminHasPermission | api_yamdb/api/permissions.py:6-8 | authenticated and admin-or-superuser; the method plays no part |
| Permissions.ModerAdminAuthorHasPermission | api_yamdb/api/permissions.py:16-18 | a safe method, or an authenticated requester |
| Permissions.AnonReadOnlyOrIsAdminHasPermission | api_yamdb/api/permissions.py:32-37 | a safe method, or an authenticated admin-or-superuser |
| Permissions.ModerAdminAuthorHasObjectPermission | api_yamdb/api/permissions.py:20-27 | safe methods are allowed; the author, a moderator, an admin or a superuser may do anything; a non-author plain user is refused exactly on unsafe methods; only an anonymous unsafe request raises |
| Permissions.IsAdminPermissionExactly | api_yamdb/api/permissions.py:6-11 | IsAdminPermission allows iff the requester is authenticated and is an admin or a superuser, whatever the method |
| Permissions.ModerAdminAuthorReadsOpenWritesAuthenticated | api_yamdb/api/permissions.py:16-18 | every requester may use a safe method; an anonymous unsafe request is refused |
| Permissions.ObjectCheckAnswersAfterViewCheck | api_yamdb/api/permissions.py:16-24 | when has_permission passed, the object check answers instead of raising |
| Permissions.PlainUserNonAuthorOnlyReads | api_yamdb/api/permissions.py:20-24 | a plain non-superuser who is not the author is allowed exactly the safe methods on the object |
| Permissions.AnonReadOnlyIsSafeOrAdmin | api_yamdb/api/permissions.py:32-37 | AnonReadOnlyOrIsAdminPermission equals "safe method or IsAdminPermission", so it allows whatever IsAdminPermission allows |
| Permissions.AdminPassesModerAdminAuthor | api_yamdb/api/permissions.py:6-27 | whatever IsAdminPermission allows, ModerAdminAuthorPermission allows too, on any object |
| Permissions.AnonymousNeverWrites | api_yamdb/api/permissions.py:6-40 | none of the three classes allows the anonymous user an unsafe method, and the object check never allows it |
| Schema.ValidateYear | api_yamdb/reviews/models.py:47-50 | a year is accepted iff it is not after the current year; otherwise the error is a validation error on `year` |
| Schema.ValidYearStaysValid | api_yamdb/reviews/models.py:47-50 | a year accepted now stays accepted in every later year |
| Schema.ValidateScore | api_yamdb/reviews/models.py:126-129 | a score is accepted iff it lies in [MIN, MAX] and in the positive small-integer range |
| Schema.FindUserByUsername | api_yamdb/api/views.py:190-193 | the lookup finds a row with that username, and fails iff no row has it |
| Schema.FindUserByCredentials | api_yamdb/api/serializers.py:47 | the lookup finds a row with both the username and the email, and fails iff no row has both |
| Schema.FindTitle | api_yamdb/api/views.py:69-70 | the lookup finds the title with that key, and fails iff no title has it |
| Schema.FindReview | api_yamdb/api/views.py:87-88 | the lookup finds the review with that key, and fails iff no review has it |
| Schema.ReplaceUserKeepsConstraints | api_yamdb/users/models.py:17-20 | overwriting a user row with one whose username and email no other row uses keeps the unique columns and the set of keys, and changes that row only |
| Schema.ReviewsOfTitle | api_yamdb/api/views.py:65-67 | the listed rows are exactly the title's reviews, each as often as in the table, and newest-first order is kept |
| Schema.CommentsOfReview | api_yamdb/api/views.py:90-95 | the listed rows are exactly the review's comments, each as often as in the table, and newest-first order is kept |
| Schema.OneReviewPerAuthor | api_yamdb/reviews/models.py:139-143 | in a valid review table two reviews of one title by one author are the same row |
| Schema.OneLinkPerTitleGenre | api_yamdb/reviews/models.py:110-115 | in a valid link table two rows with the same set (title, genre) are the same row |
| Schema.LinksWithoutGenreMayRepeat | api_yamdb/reviews/models.py:98-115 | two link rows of one title without a genre satisfy the unique constraint |
| Schema.OneCategoryPerSlug | api_yamdb/reviews/models.py:21-22 | in a valid category table two categories with one slug are the same row |
| Schema.OneGenrePerSlug | api_yamdb/reviews/models.py:35-37 | in a valid genre table two genres with one slug are the same row |
| Schema.OneUserPerEmail | api_yamdb/users/models.py:17-20 | in a valid user table two users with one email are the same row |
| Schema.Store.Valid | api_yamdb/reviews/models.py:18-163 | every table's unique keys, slugs (lines 21-22, 35-37), unique pairs (110-115, 139-143) and foreign keys (72-79, 90-104, 123-133, 151-158), the user table's unique username and email (users/models.py:17-20), the score range, and newest-first order of reviews and comments |
| Schema.Store.constructor | api_yamdb/reviews/models.py:18-163 | an empty database satisfies every constraint |
| Schema.Store.CreateUser | api_yamdb/users/models.py:17-33 | an insert fails with an integrity error on a taken username or email and changes nothing; otherwise it appends a new user with default fields and keeps the invariant |
| Schema.Store.SaveUser | api_yamdb/users/models.py:17-20 | saving fails for an unknown key or for a username or email another row uses; otherwise it replaces that one row; the invariant is kept |
| Schema.Store.AddCategory | api_yamdb/reviews/models.py:18-22 | an insert succeeds iff the slug is free (else an integrity error on `slug`, nothing changes) and appends the row |
| Schema.Store.AddGenre | api_yamdb/reviews/models.py:32-37 | an insert succeeds iff the slug is free (else an integrity error on `slug`, nothing changes) and appends the row |
| Schema.Store.AddTitle | api_yamdb/reviews/models.py:53-79 | a title is refused for a name over 256 characters, a future year or an unknown category; otherwise it is appended |
| Schema.Store.AddGenreTitle | api_yamdb/reviews/models.py:89-115 | a link is refused for an unknown title or genre or an existing (title, genre) pair; otherwise it is appended |
| Schema.Store.AddReview | api_yamdb/reviews/models.py:121-143 | a review is refused for a bad score, an unknown title or author, or a second review by that author of that title; otherwise it is inserted in newest-first position |
| Schema.Store.AddComment | api_yamdb/reviews/models.py:149-161 | a comment is refused for an unknown review or author; otherwise it is inserted in newest-first position |
| Schema.Store.DeleteComment | api_yamdb/reviews/models.py:149-161 | exactly the comment with that key is removed and the invariant is kept |
| Schema.Store.DeleteReview | api_yamdb/reviews/models.py:156-158 | the review and, by cascade, exactly its comments are removed |
| Schema.Store.DeleteTitle | api_yamdb/reviews/models.py:89-158 | the title, its link rows, its reviews and their comments are removed, and every other comment stays |
| Schema.Store.DeleteUser | api_yamdb/reviews/models.py:121-158 | the user, their reviews, their comments and the comments on their reviews are removed |
| Schema.Store.DeleteCategory | api_yamdb/reviews/models.py:72-79 | the category is removed; every title stays, with that category set to null |
| Schema.Store.DeleteGenre | api_yamdb/reviews/models.py:98-104 | the genre is removed; every link row stays, with that genre set to null |
| Serializers.ValidateRegistration | api_yamdb/api/serializers.py:36-43 | registration data is valid iff username (at most 128) and email (at most 150) are present, non-blank and pass their validators; the validated pair is the submitted one |
| Serializers.Create | api_yamdb/api/serializers.py:45-50 | an existing (username, email) row is returned unchanged; a clash on username or email alone is a validation error that adds no user; otherwise a new user is appended |
| Serializers.RegistrationIsIdempotent | api_yamdb/api/serializers.py:45-47 | in a valid user table every user is what the get-or-create lookup finds for its own credentials |
| Serializers.UpdateUser | api_yamdb/api/serializers.py:9-33 | a partial update succeeds iff every present writable field passes validation; each field is taken from the data when present; `role` only when writable; role choice and column bounds are kept |
| Serializers.UserSerializerKeepsRole | api_yamdb/api/serializers.py:22-33 | an update through UserSerializer never changes `role` |
| Serializers.ReadOnlyRoleIsDroppedRole | api_yamdb/api/serializers.py:22-33 | updating through UserSerializer equals updating through BaseUserSerializer with `role` removed from the data |
| Serializers.ValidateTokenRequest | api_yamdb/api/serializers.py:57-59 | a token request is valid iff both `username` and `confirmation_code` are present and non-blank |
| Views.AdminForWrites | api_yamdb/api/views.py:54-57 | POST, PATCH and DELETE get IsAdminPermission, every other method AllowAny |
| Views.PermissionFor | api_yamdb/api/views.py:48-186 | the permission each endpoint checks: AdminForWrites for categories, genres and titles (49-57, 107-114); ModerAdminAuthorPermission for reviews, comments and `/users/me` (62, 80, 146, 156); IsAdminPermission for users (141); AllowAny for sign-up and token (169, 186) |
| Views.AcceptedMethods | api_yamdb/api/views.py:36-186 | the methods with a handler on an endpoint's routes: GET, HEAD, OPTIONS, POST, DELETE for the create-list-destroy viewsets (36-41); GET, POST, PATCH, DELETE for titles, reviews, comments and users (63, 82, 106, 142); GET and PATCH for `/users/me` (146-157); POST and OPTIONS for the function views (168, 185) |
| Views.DetailMethods | api_yamdb/api/views.py:36-142 | the detail route has DELETE and OPTIONS on categories and genres, and GET, PATCH and DELETE on titles, reviews, comments and users; never POST or PUT; always among the endpoint's methods |
| Views.Dispatch | api_yamdb/api/views.py:48-165 | a request is handled iff it passes the endpoint's permission and its method has a handler on one of the endpoint's routes; a permitted method without one is 405; a refusal is 401 for the anonymous user and 403 otherwise |
| Views.DetailDispatch | api_yamdb/api/views.py:36-142 | a request on a detail route is refused as by the endpoint's permission (401 or 403), then 405 for a method the detail route lacks; on reviews and comments it is then handled iff the object check allows it and otherwise 403; other endpoints handle it |
| Views.TitlesFollowSlugRule | api_yamdb/api/views.py:111-114 | titles, categories and genres pick the same permission for every method |
| Views.PutNeverHandled | api_yamdb/api/views.py:36-142 | no endpoint handles PUT |
| Views.PutOnTitlesIsMethodNotAllowed | api_yamdb/api/views.py:105-114 | PUT on titles passes the permission check and is then refused as a method |
| Views.AnonymousWritesRefused | api_yamdb/api/views.py:48-165 | outside sign-up and token the anonymous user reaches no unsafe handler, and POST, PATCH, DELETE get 401 |
| Views.OnlyAdminsManage | api_yamdb/api/views.py:48-141 | a non-admin non-superuser gets 403 for writes to categories, genres, titles and users |
| Views.AdminReachesEveryHandler | api_yamdb/api/views.py:48-165 | an admin or superuser is handled on every accepted method, and on every detail method of any object |
| Views.ReadsAreOpen | api_yamdb/api/views.py:48-114 | safe accepted methods on the catalogue, reviews and comments are handled for every requester |
| Views.HeadAndOptionsRefused | api_yamdb/api/views.py:60-142 | HEAD and OPTIONS that pass the permission get 405 on titles, reviews, comments and users |
| Views.OnlyAuthorOrStaffEdits | api_yamdb/api/views.py:60-82 | PATCH or DELETE on a review or comment is handled iff the user is its author, a moderator, an admin or a superuser; otherwise it is 403 |
| Views.PostOnDetailNotAllowed | api_yamdb/api/views.py:60-82 | POST on a review or comment detail route passes the permission and is 405, whoever the author |
| Views.TitleSerializerFor | api_yamdb/api/views.py:121-124 | GET picks TitleGetSerializer and every other method TitlePostSerializer |
| Views.TitleWritesUsePostSerializer | api_yamdb/api/views.py:105-124 | every handled non-GET title request is a POST, PATCH or DELETE through TitlePostSerializer |
| Views.MeGet | api_yamdb/api/views.py:146-152 | the anonymous user gets 401 and an authenticated one 200 with their own row |
| Views.AnonymousMeIsUnauthorized | api_yamdb/api/views.py:146-149 | anonymous GET on `/users/me` passes the permission check and dispatch, and the handler answers 401 |
| Views.WithoutRole | api_yamdb/api/views.py:158-161 | the copy has no `role`, the other keys are exactly the original's, each with its original value |
| Views.WithoutRoleIdempotent | api_yamdb/api/views.py:160-161 | dropping `role` twice equals dropping it once |
| Views.PatchSelfInfo | api_yamdb/api/views.py:154-165 | the answer is 200 iff the BaseUserSerializer update of the requester with `role` dropped is valid and no other row has its username or email; then the requester's row is that update, with role and key unchanged, and every other row stays; otherwise 400 and nothing changes |
| Views.PatchSelfInfoIsReadOnlyRole | api_yamdb/api/views.py:157-165 | the `/users/me` update equals an update through the role-read-only UserSerializer |
| Views.Registration | api_yamdb/api/views.py:168-182 | the answer is 200 iff the data is valid and get-or-create accepts the pair (already registered, or neither value taken); then the table is unchanged for a registered pair and gains exactly the new default user otherwise; on 400 nothing changes |
| Views.GetToken | api_yamdb/api/views.py:185-204 | an invalid request is 400, an unknown username 404; a token is issued iff the code check accepts the found user, and is that user's |
| Views.TokenOutcomes | api_yamdb/api/views.py:190-204 | for a known user a failing code check gives 400 and a passing one a token for that user |
| Views.ReviewList | api_yamdb/api/views.py:65-67 | an unknown title is 404; otherwise the list is exactly the title's reviews, each as often as in the table, newest first |
| Views.CommentList | api_yamdb/api/views.py:90-95 | an unknown title is 404 before the review is looked up, an unknown review is 404; otherwise the list is exactly the review's comments, each as often as in the table, newest first |
| Views.CommentListIgnoresReviewTitle | api_yamdb/api/views.py:90-95 | the comment list does not depend on which existing title the path names |
| Views.CommentListCrossTitleExample | api_yamdb/api/views.py:90-95 | a review of title 1 is listed through the path of title 2 |
| Views.CreateReview | api_yamdb/api/views.py:60-75 | the score is validated first (400), then the title is looked up (404); a second review by the author is the unhandled integrity error (500); the review is created iff the score is valid, the title exists and the author has no review of it, and it is the requester's review with the given text, score and timestamp, inserted newest first |
| Views.CreateComment | api_yamdb/api/views.py:97-102 | the request fails with 404 iff the title or the review is unknown; otherwise the requester's comment with the given text and timestamp is inserted on that review, newest first |
| Tables.FilterCounts | api_yamdb/api/views.py:95 | a filter keeps each selected row exactly as often as it occurs, and no other row |
| Tables.InsertByDateNewestFirst | api_yamdb/reviews/models.py:136 | inserting a row by its date into a newest-first sequence keeps it newest first |

## Left out

- Email sending, confirmation-code generation and JWT issuance are foreign library calls. The code check is the parameter `checkToken` of `Views.GetToken`, and the token itself is the user it is issued for.
- `datetime.now()` is not modelled: the current year and the creation timestamp are parameters.
- The average rating of titles is an ORM aggregate with a decimal result, and is not modelled.
- Search, `TitleFilter`, pagination and listing order of users, categories and genres are framework plumbing, and are not modelled.
- The username pattern of `UnicodeUsernameValidator` and the email syntax of `EmailField` live in the framework. They are the parameter `Validators`.
- Whitespace trimming by the framework's `CharField` is not modelled: values are taken as submitted.
- The serializer of the review and comment endpoints, the title serializers and the filter set are not part of this model. `Views.CreateReview` validates the score as the model field does, and lets the unique constraint answer a second review.
- `reviews/constants.py` is not part of this model. MIN and MAX are the store's `minScore` and `maxScore`, and the name and slug length bounds of categories and genres are not modelled.
- The framework's abstract user is not part of this model; its 150-character bound on username, first and last name appears as `USERNAME_MAX_LENGTH`.
- The field errors are reported one at a time: the framework collects every failing field, while the model names the first one.
- Editing of reviews, comments, titles and users through PATCH, and the listing and detail reads of categories, genres, titles and users, are framework mixins acting on the rows and are not modelled as operations; their access rules are (`Views.Dispatch`, `Views.DetailDispatch`).
- The detail reads of reviews and comments are not modelled as lookups. A review detail is looked up within the title's reviews (404 for an unknown title or a review of another title). A comment detail checks the title (404), then the review by key (404), then looks the comment up within that review's comments. Only their access rule, `Views.DetailDispatch`, is modelled.
- `Views.Dispatch` answers for an endpoint's list and detail routes taken together: `Views.AcceptedMethods` is the union of the methods the two routes handle, so PATCH or DELETE on a list route, which the framework answers 405, is handled there. `Views.DetailDispatch` states the detail route on its own, with `Views.DetailMethods`. The list route alone has no separate function.
- Primary keys come from one counter for all tables, while the database has one sequence per table; only uniqueness per table matters here.
- The ordering of reviews and comments by `-pub_date` is kept as the stored order of the rows, maintained by each insert.
- The admin site, the URL configuration, the mixins module and the abandoned draft of the views under the nested `api_yamdb` package are not part of this model.
- Concurrency between requests is not modelled: every request runs alone against the store.
- The settings module is not part of this model. The 401 answer to a refused anonymous request assumes the default authentication class sends an authentication header, as the JSON web token authentication does; with session authentication the framework would answer 403.
- Views.CreateComment: the database cannot reject the comment once the review and the author are found, so its failure branch after the insert is mapped to 404 and never taken.
