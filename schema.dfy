/**
 * The catalogue and review schema (reviews/models.py) over the user table:
 * one record per model, validators, and a Store class that holds every table
 * as a sequence of rows and keeps the schema's constraints (unique columns,
 * unique pairs, foreign keys, cascade and set-null deletes, newest-first
 * ordering of reviews and comments) as its invariant.
 */
module Schema {
  import opened Wrappers
  import opened Tables
  import opened Users

  const TITLE_NAME_MAX_LENGTH: nat := 256
  /** The range of a small-integer column. */
  const SMALLINT_MIN: int := -32768
  const SMALLINT_MAX: int := 32767

  datatype Category = Category(id: nat, name: string, slug: string)
  datatype Genre = Genre(id: nat, name: string, slug: string)
  /** `category` is nullable: it is cleared when the category is deleted. */
  datatype Title = Title(id: nat, name: string, year: int, description: string, category: Option<nat>)
  /** The link table between titles and genres; both ends are nullable. */
  datatype GenreTitle = GenreTitle(id: nat, title: Option<nat>, genre: Option<nat>)
  /** `pubDate` is the timestamp the row was created with. */
  datatype Review = Review(id: nat, text: string, author: nat, score: int, pubDate: int, title: nat)
  datatype Comment = Comment(id: nat, text: string, author: nat, pubDate: int, review: nat)

  /** The exceptions a write can raise: a field validator failed, a database constraint failed, no such row. */
  datatype DbError = ValidationError(field: string) | IntegrityError(constraint: string) | DoesNotExist

  // ---------------------------------------------------------------------------
  // Validators

  /** validate_year, with the clock's current year passed in. */
  function ValidateYear(value: int, currentYear: int): (e: Option<DbError>)
    ensures e == None <==> value <= currentYear
    ensures e != None ==> e == Some(ValidationError("year"))
  {
    if value > currentYear then Some(ValidationError("year")) else None
  }

  /** A year accepted now is accepted in every later year. */
  lemma ValidYearStaysValid(value: int, now: int, later: int)
    requires ValidateYear(value, now) == None && now <= later
    ensures ValidateYear(value, later) == None
  {
  }

  /** The score column: a positive small integer between the configured bounds. */
  function ValidateScore(score: int, minScore: int, maxScore: int): (e: Option<DbError>)
    ensures e == None <==> minScore <= score <= maxScore && 0 <= score <= SMALLINT_MAX
    ensures e != None ==> e == Some(ValidationError("score"))
  {
    if score < minScore || score > maxScore || score < 0 || score > SMALLINT_MAX
    then Some(ValidationError("score")) else None
  }

  /** The bounds a title row must respect. */
  predicate TitleFieldsOk(t: Title)
  {
    |t.name| <= TITLE_NAME_MAX_LENGTH && SMALLINT_MIN <= t.year <= SMALLINT_MAX
  }

  // ---------------------------------------------------------------------------
  // Columns and table constraints

  function UserId(u: CustomUser): nat { u.id }
  function CategoryId(c: Category): nat { c.id }
  function GenreId(g: Genre): nat { g.id }
  function TitleId(t: Title): nat { t.id }
  function ReviewId(r: Review): nat { r.id }
  function ReviewDate(r: Review): int { r.pubDate }
  function CommentDate(c: Comment): int { c.pubDate }

  /** Primary key, username and email are unique. */
  predicate UsersDistinct(a: CustomUser, b: CustomUser)
  {
    a.id != b.id && a.username != b.username && a.email != b.email
  }

  /** Primary key and slug are unique. */
  predicate CategoriesDistinct(a: Category, b: Category) { a.id != b.id && a.slug != b.slug }
  predicate GenresDistinct(a: Genre, b: Genre) { a.id != b.id && a.slug != b.slug }
  predicate TitlesDistinct(a: Title, b: Title) { a.id != b.id }

  /** unique_title_genre: NULLs are distinct, so only rows with both ends set may clash. */
  predicate GenreTitlesDistinct(a: GenreTitle, b: GenreTitle)
  {
    a.id != b.id && (a.title.Some? && a.genre.Some? ==> (a.title, a.genre) != (b.title, b.genre))
  }

  /** "unique review": one review per (title, author). */
  predicate ReviewsDistinct(a: Review, b: Review)
  {
    a.id != b.id && (a.title, a.author) != (b.title, b.author)
  }

  predicate CommentsDistinct(a: Comment, b: Comment) { a.id != b.id }

  predicate UsersOk(us: seq<CustomUser>, next: nat)
  {
    Pairwise(us, UsersDistinct) && forall u :: u in us ==> u.id < next
  }

  predicate CategoriesOk(cs: seq<Category>, next: nat)
  {
    Pairwise(cs, CategoriesDistinct) && forall c :: c in cs ==> c.id < next
  }

  predicate GenresOk(gs: seq<Genre>, next: nat)
  {
    Pairwise(gs, GenresDistinct) && forall g :: g in gs ==> g.id < next
  }

  predicate TitlesOk(ts: seq<Title>, cs: seq<Category>, next: nat)
  {
    && Pairwise(ts, TitlesDistinct)
    && forall t :: t in ts ==>
         t.id < next && TitleFieldsOk(t) && (t.category.Some? ==> t.category.value in Keys(cs, CategoryId))
  }

  predicate GenreTitlesOk(gts: seq<GenreTitle>, ts: seq<Title>, gs: seq<Genre>, next: nat)
  {
    && Pairwise(gts, GenreTitlesDistinct)
    && forall g :: g in gts ==>
         && g.id < next
         && (g.title.Some? ==> g.title.value in Keys(ts, TitleId))
         && (g.genre.Some? ==> g.genre.value in Keys(gs, GenreId))
  }

  predicate ReviewsOk(rs: seq<Review>, ts: seq<Title>, us: seq<CustomUser>, minScore: int, maxScore: int, next: nat)
  {
    && Pairwise(rs, ReviewsDistinct)
    && NewestFirst(rs, ReviewDate)
    && forall r :: r in rs ==>
         && r.id < next
         && r.title in Keys(ts, TitleId)
         && r.author in Keys(us, UserId)
         && ValidateScore(r.score, minScore, maxScore) == None
  }

  predicate CommentsOk(cs: seq<Comment>, rs: seq<Review>, us: seq<CustomUser>, next: nat)
  {
    && Pairwise(cs, CommentsDistinct)
    && NewestFirst(cs, CommentDate)
    && forall c :: c in cs ==> c.id < next && c.review in Keys(rs, ReviewId) && c.author in Keys(us, UserId)
  }

  // ---------------------------------------------------------------------------
  // Lookups (get / get_object_or_404)

  function FindUser(us: seq<CustomUser>, id: nat): (r: Option<CustomUser>)
    ensures r.Some? ==> r.value in us && r.value.id == id
    ensures r.None? <==> id !in Keys(us, UserId)
  {
    if us == [] then None
    else if us[0].id == id then Some(us[0])
    else FindUser(us[1..], id)
  }

  function FindUserByUsername(us: seq<CustomUser>, name: string): (r: Option<CustomUser>)
    ensures r.Some? ==> r.value in us && r.value.username == name
    ensures r.None? <==> forall u :: u in us ==> u.username != name
  {
    if us == [] then None
    else if us[0].username == name then Some(us[0])
    else FindUserByUsername(us[1..], name)
  }

  /** The user whose username and email are both the given ones. */
  function FindUserByCredentials(us: seq<CustomUser>, name: string, email: string): (r: Option<CustomUser>)
    ensures r.Some? ==> r.value in us && r.value.username == name && r.value.email == email
    ensures r.None? <==> forall u :: u in us ==> u.username != name || u.email != email
  {
    if us == [] then None
    else if us[0].username == name && us[0].email == email then Some(us[0])
    else FindUserByCredentials(us[1..], name, email)
  }

  function FindTitle(ts: seq<Title>, id: nat): (r: Option<Title>)
    ensures r.Some? ==> r.value in ts && r.value.id == id
    ensures r.None? <==> id !in Keys(ts, TitleId)
  {
    if ts == [] then None
    else if ts[0].id == id then Some(ts[0])
    else FindTitle(ts[1..], id)
  }

  function FindReview(rs: seq<Review>, id: nat): (r: Option<Review>)
    ensures r.Some? ==> r.value in rs && r.value.id == id
    ensures r.None? <==> id !in Keys(rs, ReviewId)
  {
    if rs == [] then None
    else if rs[0].id == id then Some(rs[0])
    else FindReview(rs[1..], id)
  }

  /** The position of the row with primary key `id`, or -1. */
  function UserIndex(us: seq<CustomUser>, id: nat): (i: int)
    ensures -1 <= i < |us|
    ensures i >= 0 ==> us[i].id == id
    ensures i < 0 <==> id !in Keys(us, UserId)
  {
    if us == [] then -1
    else if us[0].id == id then assert us[0] in us; 0
    else
      var k := UserIndex(us[1..], id);
      assert k >= 0 ==> us[1..][k] in us;
      assert forall x :: x in us[1..] ==> x in us;
      if k < 0 then -1 else k + 1
  }

  /**
   * Overwriting the row at `i` with a row of the same key whose username and
   * email no other row uses keeps the user table's constraints and changes
   * that row only.
   */
  lemma ReplaceUserKeepsConstraints(us: seq<CustomUser>, i: nat, u: CustomUser)
    requires Pairwise(us, UsersDistinct) && i < |us| && us[i].id == u.id
    requires forall v :: v in us && v.id != u.id ==> v.username != u.username && v.email != u.email
    ensures Pairwise(us[i := u], UsersDistinct)
    ensures Keys(us[i := u], UserId) == Keys(us, UserId)
    ensures forall v :: v in us[i := u] <==> v == u || (v in us && v.id != u.id)
  {
    var r := us[i := u];
    forall a, b | 0 <= a < b < |r| ensures UsersDistinct(r[a], r[b]) {
      assert UsersDistinct(us[a], us[b]);
      if a == i { assert us[b] in us; }
      if b == i { assert us[a] in us; }
    }
    forall k | k in Keys(us, UserId) ensures k in Keys(r, UserId) {
      var x :| x in us && x.id == k;
      var j :| 0 <= j < |us| && us[j] == x;
      assert r[j] in r && r[j].id == k;
    }
    forall k | k in Keys(r, UserId) ensures k in Keys(us, UserId) {
      var x :| x in r && x.id == k;
      var j :| 0 <= j < |r| && r[j] == x;
      assert us[j] in us && us[j].id == k;
    }
    assert r[i] == u;
    forall v | v in r ensures v == u || (v in us && v.id != u.id) {
      var j :| 0 <= j < |r| && r[j] == v;
      if j != i {
        if j < i { assert UsersDistinct(us[j], us[i]); } else { assert UsersDistinct(us[i], us[j]); }
      }
    }
    forall v | v in us && v.id != u.id ensures v in r {
      var j :| 0 <= j < |us| && us[j] == v;
      assert r[j] == v;
    }
  }

  /** The rows the framework lists for a title: its reviews, newest first. */
  function ReviewsOfTitle(rs: seq<Review>, title: nat): (r: seq<Review>)
    ensures forall x :: x in r <==> x in rs && x.title == title
    ensures forall x :: multiset(r)[x] == if x.title == title then multiset(rs)[x] else 0
    ensures NewestFirst(rs, ReviewDate) ==> NewestFirst(r, ReviewDate)
  {
    assert NewestFirst(rs, ReviewDate) ==> NewestFirst(Filter(rs, ReviewOfTitle(title)), ReviewDate) by {
      if NewestFirst(rs, ReviewDate) { FilterNewestFirst(rs, ReviewOfTitle(title), ReviewDate); }
    }
    FilterCounts(rs, ReviewOfTitle(title));
    Filter(rs, ReviewOfTitle(title))
  }

  /** The rows the framework lists for a review: its comments, newest first. */
  function CommentsOfReview(cs: seq<Comment>, review: nat): (r: seq<Comment>)
    ensures forall x :: x in r <==> x in cs && x.review == review
    ensures forall x :: multiset(r)[x] == if x.review == review then multiset(cs)[x] else 0
    ensures NewestFirst(cs, CommentDate) ==> NewestFirst(r, CommentDate)
  {
    assert NewestFirst(cs, CommentDate) ==> NewestFirst(Filter(cs, CommentOnReview(review)), CommentDate) by {
      if NewestFirst(cs, CommentDate) { FilterNewestFirst(cs, CommentOnReview(review), CommentDate); }
    }
    FilterCounts(cs, CommentOnReview(review));
    Filter(cs, CommentOnReview(review))
  }

  /** In a review table whose primary key is unique, a lookup by key finds the one row with that key. */
  lemma FindReviewUnique(rs: seq<Review>, x: Review)
    requires Pairwise(rs, ReviewsDistinct) && x in rs
    ensures FindReview(rs, x.id) == Some(x)
  {
  }

  /** In a valid review table a title has no two reviews by the same author. */
  lemma OneReviewPerAuthor(rs: seq<Review>, a: Review, b: Review)
    requires Pairwise(rs, ReviewsDistinct) && a in rs && b in rs
    requires a.title == b.title && a.author == b.author
    ensures a == b
  {
  }

  /** In a valid link table a title is linked to a genre by one row at most. */
  lemma OneLinkPerTitleGenre(gts: seq<GenreTitle>, a: GenreTitle, b: GenreTitle)
    requires Pairwise(gts, GenreTitlesDistinct) && a in gts && b in gts
    requires a.title.Some? && a.genre.Some? && a.title == b.title && a.genre == b.genre
    ensures a == b
  {
  }

  /** unique_title_genre does not stop two links of one title that both lack a genre. */
  lemma LinksWithoutGenreMayRepeat(title: nat)
    ensures Pairwise([GenreTitle(1, Some(title), None), GenreTitle(2, Some(title), None)], GenreTitlesDistinct)
  {
  }

  /** In a valid category table a slug names one category at most. */
  lemma OneCategoryPerSlug(cs: seq<Category>, a: Category, b: Category)
    requires Pairwise(cs, CategoriesDistinct) && a in cs && b in cs && a.slug == b.slug
    ensures a == b
  {
  }

  /** In a valid genre table a slug names one genre at most. */
  lemma OneGenrePerSlug(gs: seq<Genre>, a: Genre, b: Genre)
    requires Pairwise(gs, GenresDistinct) && a in gs && b in gs && a.slug == b.slug
    ensures a == b
  {
  }

  /** In a valid user table an email belongs to one user at most. */
  lemma OneUserPerEmail(us: seq<CustomUser>, a: CustomUser, b: CustomUser)
    requires Pairwise(us, UsersDistinct) && a in us && b in us && a.email == b.email
    ensures a == b
  {
  }

  // ---------------------------------------------------------------------------
  // Row selections of deletes and updates

  function ReviewOfTitle(title: nat): Review -> bool { (r: Review) => r.title == title }
  function CommentOnReview(review: nat): Comment -> bool { (c: Comment) => c.review == review }

  function UserIsNot(id: nat): CustomUser -> bool { (u: CustomUser) => u.id != id }
  function CategoryIsNot(id: nat): Category -> bool { (c: Category) => c.id != id }
  function GenreIsNot(id: nat): Genre -> bool { (g: Genre) => g.id != id }
  function TitleIsNot(id: nat): Title -> bool { (t: Title) => t.id != id }
  function ReviewIsNot(id: nat): Review -> bool { (r: Review) => r.id != id }
  function CommentIsNot(id: nat): Comment -> bool { (c: Comment) => c.id != id }
  function ReviewNotOfTitle(title: nat): Review -> bool { (r: Review) => r.title != title }
  function ReviewNotBy(author: nat): Review -> bool { (r: Review) => r.author != author }
  function GenreTitleNotOfTitle(title: nat): GenreTitle -> bool { (g: GenreTitle) => g.title != Some(title) }
  function CommentNotOn(reviews: set<nat>): Comment -> bool { (c: Comment) => c.review !in reviews }
  function CommentNotByNorOn(author: nat, reviews: set<nat>): Comment -> bool
  {
    (c: Comment) => c.author != author && c.review !in reviews
  }

  function ReviewBy(author: nat): Review -> bool { (r: Review) => r.author == author }

  /** A review whose key is not among those a cascade removes was not selected by it. */
  lemma NotRemoved(rs: seq<Review>, p: Review -> bool, x: Review)
    requires x in rs && x.id !in ReviewIdsWhere(rs, p)
    ensures !p(x)
  {
  }

  /** The primary keys of the reviews selected by `p`: the rows a cascade removes. */
  function ReviewIdsWhere(rs: seq<Review>, p: Review -> bool): set<nat>
  {
    set r | r in rs && p(r) :: r.id
  }

  /** SET_NULL on a title's category. */
  function ClearCategory(id: nat): Title -> Title
  {
    (t: Title) => if t.category == Some(id) then t.(category := None) else t
  }

  /** SET_NULL on a link row's genre. */
  function ClearGenre(id: nat): GenreTitle -> GenreTitle
  {
    (g: GenreTitle) => if g.genre == Some(id) then g.(genre := None) else g
  }

  predicate UsernameTaken(us: seq<CustomUser>, name: string) { exists u :: u in us && u.username == name }
  predicate EmailTaken(us: seq<CustomUser>, email: string) { exists u :: u in us && u.email == email }
  predicate SlugTaken<T(==)>(s: seq<T>, slug: T -> string, value: string) { exists x :: x in s && slug(x) == value }
  function CategorySlug(c: Category): string { c.slug }
  function GenreSlug(g: Genre): string { g.slug }
  predicate ReviewExists(rs: seq<Review>, title: nat, author: nat)
  {
    exists r :: r in rs && r.title == title && r.author == author
  }
  predicate GenreTitleExists(gts: seq<GenreTitle>, title: nat, genre: nat)
  {
    exists g :: g in gts && g.title == Some(title) && g.genre == Some(genre)
  }

  // ---------------------------------------------------------------------------
  // The database

  class Store {
    /** The score bounds (MIN, MAX) of the review model. */
    const minScore: int
    const maxScore: int

    var users: seq<CustomUser>
    var categories: seq<Category>
    var genres: seq<Genre>
    var titles: seq<Title>
    var genreTitles: seq<GenreTitle>
    var reviews: seq<Review>
    var comments: seq<Comment>
    /** The next primary key to hand out; every key in use is below it. */
    var nextId: nat

    predicate Valid()
      reads this
    {
      && UsersOk(users, nextId)
      && CategoriesOk(categories, nextId)
      && GenresOk(genres, nextId)
      && TitlesOk(titles, categories, nextId)
      && GenreTitlesOk(genreTitles, titles, genres, nextId)
      && ReviewsOk(reviews, titles, users, minScore, maxScore, nextId)
      && CommentsOk(comments, reviews, users, nextId)
    }

    constructor (minScore: int, maxScore: int)
      ensures Valid()
      ensures this.minScore == minScore && this.maxScore == maxScore
      ensures users == [] && categories == [] && genres == [] && titles == []
      ensures genreTitles == [] && reviews == [] && comments == []
    {
      this.minScore, this.maxScore := minScore, maxScore;
      users, categories, genres, titles := [], [], [], [];
      genreTitles, reviews, comments := [], [], [];
      nextId := 1;
    }

    // -------------------------------------------------------------------------
    // Inserts

    /** objects.create(username, email): the unique username and email columns guard the insert. */
    method CreateUser(username: string, email: string) returns (r: Result<CustomUser, DbError>)
      requires Valid()
      modifies this`users, this`nextId
      ensures Valid()
      ensures UsernameTaken(old(users), username) ==> r == Failure(IntegrityError("username"))
      ensures !UsernameTaken(old(users), username) && EmailTaken(old(users), email) ==> r == Failure(IntegrityError("email"))
      ensures r.Success? <==> !UsernameTaken(old(users), username) && !EmailTaken(old(users), email)
      ensures r.Success? ==> (r.value == NewUser(old(nextId), username, email)
                          && users == old(users) + [r.value] && nextId == old(nextId) + 1)
      ensures r.Failure? ==> users == old(users) && nextId == old(nextId)
    {
      if UsernameTaken(users, username) {
        return Failure(IntegrityError("username"));
      }
      if EmailTaken(users, email) {
        return Failure(IntegrityError("email"));
      }
      var u := NewUser(nextId, username, email);
      AppendPairwise(users, u, UsersDistinct);
      users := users + [u];
      nextId := nextId + 1;
      r := Success(u);
    }

    /** Saving an edited user row: the row must exist and its username and email must stay unique. */
    method SaveUser(u: CustomUser) returns (r: Result<CustomUser, DbError>)
      requires Valid()
      modifies this`users
      ensures Valid()
      ensures u.id !in Keys(old(users), UserId) ==> r == Failure(DoesNotExist)
      ensures r.Success? <==>
        && u.id in Keys(old(users), UserId)
        && (forall v :: v in old(users) && v.id != u.id ==> v.username != u.username && v.email != u.email)
      ensures r.Success? ==> (r.value == u && u in users
                          && forall v :: v in users <==> v == u || (v in old(users) && v.id != u.id))
      ensures r.Failure? ==> users == old(users)
    {
      var i := UserIndex(users, u.id);
      if i < 0 {
        return Failure(DoesNotExist);
      }
      if exists v :: v in users && v.id != u.id && v.username == u.username {
        return Failure(IntegrityError("username"));
      }
      if exists v :: v in users && v.id != u.id && v.email == u.email {
        return Failure(IntegrityError("email"));
      }
      ReplaceUserKeepsConstraints(users, i, u);
      users := users[i := u];
      r := Success(u);
    }

    method AddCategory(name: string, slug: string) returns (r: Result<Category, DbError>)
      requires Valid()
      modifies this`categories, this`nextId
      ensures Valid()
      ensures r.Success? <==> !SlugTaken(old(categories), CategorySlug, slug)
      ensures r.Failure? ==> r.error == IntegrityError("slug") && categories == old(categories) && nextId == old(nextId)
      ensures r.Success? ==> (r.value == Category(old(nextId), name, slug)
                          && categories == old(categories) + [r.value] && nextId == old(nextId) + 1)
    {
      if SlugTaken(categories, CategorySlug, slug) {
        return Failure(IntegrityError("slug"));
      }
      var c := Category(nextId, name, slug);
      AppendPairwise(categories, c, CategoriesDistinct);
      categories := categories + [c];
      nextId := nextId + 1;
      r := Success(c);
    }

    method AddGenre(name: string, slug: string) returns (r: Result<Genre, DbError>)
      requires Valid()
      modifies this`genres, this`nextId
      ensures Valid()
      ensures r.Success? <==> !SlugTaken(old(genres), GenreSlug, slug)
      ensures r.Failure? ==> r.error == IntegrityError("slug") && genres == old(genres) && nextId == old(nextId)
      ensures r.Success? ==> (r.value == Genre(old(nextId), name, slug)
                          && genres == old(genres) + [r.value] && nextId == old(nextId) + 1)
    {
      if SlugTaken(genres, GenreSlug, slug) {
        return Failure(IntegrityError("slug"));
      }
      var g := Genre(nextId, name, slug);
      AppendPairwise(genres, g, GenresDistinct);
      genres := genres + [g];
      nextId := nextId + 1;
      r := Success(g);
    }

    /** A title passes its field validators (with the current year given) and names an existing category. */
    method AddTitle(name: string, year: int, description: string, category: Option<nat>, currentYear: int)
      returns (r: Result<Title, DbError>)
      requires Valid()
      modifies this`titles, this`nextId
      ensures Valid()
      ensures |name| > TITLE_NAME_MAX_LENGTH ==> r == Failure(ValidationError("name"))
      ensures |name| <= TITLE_NAME_MAX_LENGTH && ValidateYear(year, currentYear).Some? ==> r == Failure(ValidationError("year"))
      ensures r.Success? <==>
        && |name| <= TITLE_NAME_MAX_LENGTH
        && ValidateYear(year, currentYear) == None && SMALLINT_MIN <= year <= SMALLINT_MAX
        && (category.Some? ==> category.value in Keys(categories, CategoryId))
      ensures r.Success? ==> (r.value == Title(old(nextId), name, year, description, category)
                          && titles == old(titles) + [r.value] && nextId == old(nextId) + 1)
      ensures r.Failure? ==> titles == old(titles) && nextId == old(nextId)
    {
      if |name| > TITLE_NAME_MAX_LENGTH {
        return Failure(ValidationError("name"));
      }
      var e := ValidateYear(year, currentYear);
      if e.Some? {
        return Failure(e.value);
      }
      if year < SMALLINT_MIN || year > SMALLINT_MAX {
        return Failure(ValidationError("year"));
      }
      if category.Some? && !(exists c :: c in categories && c.id == category.value) {
        return Failure(IntegrityError("category"));
      }
      var t := Title(nextId, name, year, description, category);
      AppendPairwise(titles, t, TitlesDistinct);
      titles := titles + [t];
      nextId := nextId + 1;
      r := Success(t);
    }

    /** Links a title to a genre; unique_title_genre rejects a second link of the same pair. */
    method AddGenreTitle(title: nat, genre: nat) returns (r: Result<GenreTitle, DbError>)
      requires Valid()
      modifies this`genreTitles, this`nextId
      ensures Valid()
      ensures r.Success? <==>
        title in Keys(titles, TitleId) && genre in Keys(genres, GenreId) && !GenreTitleExists(old(genreTitles), title, genre)
      ensures r.Success? ==> (r.value == GenreTitle(old(nextId), Some(title), Some(genre))
                          && genreTitles == old(genreTitles) + [r.value] && nextId == old(nextId) + 1)
      ensures r.Failure? ==> r.error.IntegrityError? && genreTitles == old(genreTitles) && nextId == old(nextId)
    {
      if FindTitle(titles, title).None? {
        return Failure(IntegrityError("title"));
      }
      if !(exists g :: g in genres && g.id == genre) {
        return Failure(IntegrityError("genre"));
      }
      if GenreTitleExists(genreTitles, title, genre) {
        return Failure(IntegrityError("unique_title_genre"));
      }
      var l := GenreTitle(nextId, Some(title), Some(genre));
      AppendPairwise(genreTitles, l, GenreTitlesDistinct);
      genreTitles := genreTitles + [l];
      nextId := nextId + 1;
      r := Success(l);
    }

    /** A review stamped `now`: score validators, the two foreign keys, then "unique review". */
    method AddReview(author: nat, title: nat, score: int, text: string, now: int) returns (r: Result<Review, DbError>)
      requires Valid()
      modifies this`reviews, this`nextId
      ensures Valid()
      ensures ValidateScore(score, minScore, maxScore).Some? ==> r == Failure(ValidationError("score"))
      ensures ValidateScore(score, minScore, maxScore) == None && title in Keys(titles, TitleId)
              && author in Keys(users, UserId) && ReviewExists(old(reviews), title, author)
              ==> r == Failure(IntegrityError("unique review"))
      ensures r.Success? <==>
        && ValidateScore(score, minScore, maxScore) == None
        && title in Keys(titles, TitleId) && author in Keys(users, UserId)
        && !ReviewExists(old(reviews), title, author)
      ensures r.Success? ==> (r.value == Review(old(nextId), text, author, score, now, title)
                          && reviews == InsertByDate(old(reviews), r.value, ReviewDate)
                          && nextId == old(nextId) + 1)
      ensures r.Failure? ==> reviews == old(reviews) && nextId == old(nextId)
    {
      var e := ValidateScore(score, minScore, maxScore);
      if e.Some? {
        return Failure(e.value);
      }
      if FindTitle(titles, title).None? {
        return Failure(IntegrityError("title"));
      }
      if FindUser(users, author).None? {
        return Failure(IntegrityError("author"));
      }
      if ReviewExists(reviews, title, author) {
        return Failure(IntegrityError("unique review"));
      }
      var rv := Review(nextId, text, author, score, now, title);
      InsertByDatePairwise(reviews, rv, ReviewDate, ReviewsDistinct);
      InsertByDateNewestFirst(reviews, rv, ReviewDate);
      InsertByDateMembers(reviews, rv, ReviewDate);
      var grown := InsertByDate(reviews, rv, ReviewDate);
      forall k | k in Keys(reviews, ReviewId) ensures k in Keys(grown, ReviewId) {
        var x :| x in reviews && x.id == k;
        assert x in grown;
      }
      reviews := grown;
      nextId := nextId + 1;
      r := Success(rv);
    }

    /** A comment stamped `now` on an existing review by an existing user. */
    method AddComment(author: nat, review: nat, text: string, now: int) returns (r: Result<Comment, DbError>)
      requires Valid()
      modifies this`comments, this`nextId
      ensures Valid()
      ensures r.Success? <==> review in Keys(reviews, ReviewId) && author in Keys(users, UserId)
      ensures r.Success? ==> (r.value == Comment(old(nextId), text, author, now, review)
                          && comments == InsertByDate(old(comments), r.value, CommentDate)
                          && nextId == old(nextId) + 1)
      ensures r.Failure? ==> r.error.IntegrityError? && comments == old(comments) && nextId == old(nextId)
    {
      if FindReview(reviews, review).None? {
        return Failure(IntegrityError("review"));
      }
      if FindUser(users, author).None? {
        return Failure(IntegrityError("author"));
      }
      var c := Comment(nextId, text, author, now, review);
      InsertByDatePairwise(comments, c, CommentDate, CommentsDistinct);
      InsertByDateNewestFirst(comments, c, CommentDate);
      InsertByDateMembers(comments, c, CommentDate);
      comments := InsertByDate(comments, c, CommentDate);
      nextId := nextId + 1;
      r := Success(c);
    }
    // -------------------------------------------------------------------------
    // Deletes: CASCADE removes the dependent rows, SET_NULL clears the reference

    method DeleteComment(id: nat)
      requires Valid()
      modifies this`comments
      ensures Valid()
      ensures comments == Filter(old(comments), CommentIsNot(id))
      ensures forall c :: c in comments <==> c in old(comments) && c.id != id
    {
      FilterPairwise(comments, CommentIsNot(id), CommentsDistinct);
      FilterNewestFirst(comments, CommentIsNot(id), CommentDate);
      comments := Filter(comments, CommentIsNot(id));
    }

    /** Deleting a review deletes its comments. */
    method DeleteReview(id: nat)
      requires Valid()
      modifies this`reviews, this`comments
      ensures Valid()
      ensures reviews == Filter(old(reviews), ReviewIsNot(id))
      ensures comments == Filter(old(comments), CommentNotOn({id}))
      ensures forall r :: r in reviews <==> r in old(reviews) && r.id != id
      ensures forall c :: c in comments <==> c in old(comments) && c.review != id
    {
      var rs := Filter(reviews, ReviewIsNot(id));
      var cs := Filter(comments, CommentNotOn({id}));
      FilterPairwise(reviews, ReviewIsNot(id), ReviewsDistinct);
      FilterNewestFirst(reviews, ReviewIsNot(id), ReviewDate);
      FilterPairwise(comments, CommentNotOn({id}), CommentsDistinct);
      FilterNewestFirst(comments, CommentNotOn({id}), CommentDate);
      forall c | c in cs ensures c.review in Keys(rs, ReviewId) {
        FilterKeeps(reviews, ReviewIsNot(id), ReviewId, c.review);
      }
      reviews, comments := rs, cs;
    }

    /** Deleting a title deletes its reviews, their comments and its genre links. */
    method DeleteTitle(id: nat)
      requires Valid()
      modifies this`titles, this`genreTitles, this`reviews, this`comments
      ensures Valid()
      ensures titles == Filter(old(titles), TitleIsNot(id))
      ensures genreTitles == Filter(old(genreTitles), GenreTitleNotOfTitle(id))
      ensures reviews == Filter(old(reviews), ReviewNotOfTitle(id))
      ensures comments == Filter(old(comments), CommentNotOn(ReviewIdsWhere(old(reviews), ReviewOfTitle(id))))
      ensures forall r :: r in reviews <==> r in old(reviews) && r.title != id
      ensures forall c :: c in comments ==> c in old(comments)
      ensures forall c :: c in old(comments) && FindReview(old(reviews), c.review).value.title != id ==> c in comments
    {
      var removed := ReviewIdsWhere(reviews, ReviewOfTitle(id));
      var ts := Filter(titles, TitleIsNot(id));
      var gts := Filter(genreTitles, GenreTitleNotOfTitle(id));
      var rs := Filter(reviews, ReviewNotOfTitle(id));
      var cs := Filter(comments, CommentNotOn(removed));
      FilterPairwise(titles, TitleIsNot(id), TitlesDistinct);
      FilterPairwise(genreTitles, GenreTitleNotOfTitle(id), GenreTitlesDistinct);
      FilterPairwise(reviews, ReviewNotOfTitle(id), ReviewsDistinct);
      FilterNewestFirst(reviews, ReviewNotOfTitle(id), ReviewDate);
      FilterPairwise(comments, CommentNotOn(removed), CommentsDistinct);
      FilterNewestFirst(comments, CommentNotOn(removed), CommentDate);
      forall g | g in gts && g.title.Some? ensures g.title.value in Keys(ts, TitleId) {
        FilterKeeps(titles, TitleIsNot(id), TitleId, g.title.value);
      }
      forall r | r in rs ensures r.title in Keys(ts, TitleId) {
        FilterKeeps(titles, TitleIsNot(id), TitleId, r.title);
      }
      forall c | c in cs ensures c.review in Keys(rs, ReviewId) {
        forall x | x in reviews && x.id == c.review ensures ReviewNotOfTitle(id)(x) {
          NotRemoved(reviews, ReviewOfTitle(id), x);
        }
        FilterKeeps(reviews, ReviewNotOfTitle(id), ReviewId, c.review);
      }
      forall c | c in comments && FindReview(reviews, c.review).value.title != id ensures c in cs {
        var x := FindReview(reviews, c.review).value;
        forall y | y in reviews && y.id == c.review ensures y.title != id {
          FindReviewUnique(reviews, y);
        }
      }
      titles, genreTitles, reviews, comments := ts, gts, rs, cs;
    }

    /** Deleting a user deletes the reviews and comments they wrote, and the comments on those reviews. */
    method DeleteUser(id: nat)
      requires Valid()
      modifies this`users, this`reviews, this`comments
      ensures Valid()
      ensures users == Filter(old(users), UserIsNot(id))
      ensures reviews == Filter(old(reviews), ReviewNotBy(id))
      ensures comments == Filter(old(comments), CommentNotByNorOn(id, ReviewIdsWhere(old(reviews), ReviewBy(id))))
      ensures forall r :: r in reviews <==> r in old(reviews) && r.author != id
      ensures forall c :: c in comments ==> c in old(comments) && c.author != id
    {
      var removed := ReviewIdsWhere(reviews, ReviewBy(id));
      var us := Filter(users, UserIsNot(id));
      var rs := Filter(reviews, ReviewNotBy(id));
      var cs := Filter(comments, CommentNotByNorOn(id, removed));
      FilterPairwise(users, UserIsNot(id), UsersDistinct);
      FilterPairwise(reviews, ReviewNotBy(id), ReviewsDistinct);
      FilterNewestFirst(reviews, ReviewNotBy(id), ReviewDate);
      FilterPairwise(comments, CommentNotByNorOn(id, removed), CommentsDistinct);
      FilterNewestFirst(comments, CommentNotByNorOn(id, removed), CommentDate);
      forall r | r in rs ensures r.author in Keys(us, UserId) {
        FilterKeeps(users, UserIsNot(id), UserId, r.author);
      }
      forall c | c in cs ensures c.author in Keys(us, UserId) && c.review in Keys(rs, ReviewId) {
        FilterKeeps(users, UserIsNot(id), UserId, c.author);
        forall x | x in reviews && x.id == c.review ensures ReviewNotBy(id)(x) {
          NotRemoved(reviews, ReviewBy(id), x);
        }
        FilterKeeps(reviews, ReviewNotBy(id), ReviewId, c.review);
      }
      users, reviews, comments := us, rs, cs;
    }

    /** Deleting a category keeps its titles and clears their category. */
    method DeleteCategory(id: nat)
      requires Valid()
      modifies this`categories, this`titles
      ensures Valid()
      ensures categories == Filter(old(categories), CategoryIsNot(id))
      ensures titles == MapSeq(old(titles), ClearCategory(id))
      ensures |titles| == |old(titles)|
      ensures Keys(titles, TitleId) == Keys(old(titles), TitleId)
      ensures forall t :: t in titles ==> t.category != Some(id)
    {
      var cs := Filter(categories, CategoryIsNot(id));
      var f := ClearCategory(id);
      var ts := MapSeq(titles, f);
      FilterPairwise(categories, CategoryIsNot(id), CategoriesDistinct);
      forall x, y | TitlesDistinct(x, y) ensures TitlesDistinct(f(x), f(y)) {
      }
      MapPairwise(titles, f, TitlesDistinct);
      MapSeqKeys(titles, f, TitleId);
      forall t | t in ts ensures t.id < nextId && TitleFieldsOk(t) && (t.category.Some? ==> t.category.value in Keys(cs, CategoryId)) {
        var i :| 0 <= i < |ts| && ts[i] == t;
        assert titles[i] in titles;
        if t.category.Some? {
          FilterKeeps(categories, CategoryIsNot(id), CategoryId, t.category.value);
        }
      }
      categories, titles := cs, ts;
    }

    /** Deleting a genre keeps its link rows and clears their genre. */
    method DeleteGenre(id: nat)
      requires Valid()
      modifies this`genres, this`genreTitles
      ensures Valid()
      ensures genres == Filter(old(genres), GenreIsNot(id))
      ensures genreTitles == MapSeq(old(genreTitles), ClearGenre(id))
      ensures |genreTitles| == |old(genreTitles)|
      ensures forall g :: g in genreTitles ==> g.genre != Some(id)
    {
      var gs := Filter(genres, GenreIsNot(id));
      var f := ClearGenre(id);
      var gts := MapSeq(genreTitles, f);
      FilterPairwise(genres, GenreIsNot(id), GenresDistinct);
      forall x, y | GenreTitlesDistinct(x, y) ensures GenreTitlesDistinct(f(x), f(y)) {
      }
      MapPairwise(genreTitles, f, GenreTitlesDistinct);
      forall g | g in gts ensures g.id < nextId && (g.title.Some? ==> g.title.value in Keys(titles, TitleId))
                                 && (g.genre.Some? ==> g.genre.value in Keys(gs, GenreId)) {
        var i :| 0 <= i < |gts| && gts[i] == g;
        assert genreTitles[i] in genreTitles;
        if g.genre.Some? {
          FilterKeeps(genres, GenreIsNot(id), GenreId, g.genre.value);
        }
      }
      genres, genreTitles := gs, gts;
    }
  }
}
