/** The relational schema of the review site: one row type per model, the
    database as one value holding a table (a map from primary key to row) per
    model, the constraints the database itself enforces, and the effect of
    each statement the application issues, including the on_delete rules. */
module Models {
  import opened Wrappers
  import Rating

  type UserId = nat
  type CodeId = nat
  type CategoryId = nat
  type GenreId = nat
  type TitleId = nat
  type GenreTitleId = nat
  type ReviewId = nat
  type CommentId = nat

  /** The three choices of User.role. */
  datatype Role = UserRole | ModeratorRole | AdminRole

  const DefaultRole: Role := UserRole

  datatype User = User(
    username: string,
    email: string,
    firstName: Option<string>,
    lastName: Option<string>,
    bio: Option<string>,
    role: Role,
    isSuperuser: bool)

  /** The row that creating a user from a username and an email stores:
      every other column takes its default. */
  function NewUser(username: string, email: string): User
  {
    User(username, email, None, None, None, DefaultRole, false)
  }

  /** A confirmation code, owned one-to-one by a user. */
  datatype Code = Code(user: UserId, confirmationCode: Option<string>)

  datatype Category = Category(name: string, slug: string)

  datatype Genre = Genre(name: string, slug: string)

  /** A title; its category is nullable and its genres are the GenreTitle
      rows that point at it. The rating is derived, see TitleRating. */
  datatype Title = Title(name: string, year: Option<int>, category: Option<CategoryId>, description: string)

  datatype GenreTitle = GenreTitle(title: TitleId, genre: GenreId)

  datatype Review = Review(title: TitleId, text: string, author: UserId, score: int)

  datatype Comment = Comment(review: ReviewId, text: string, author: UserId)

  datatype Db = Db(
    users: map<UserId, User>,
    codes: map<CodeId, Code>,
    categories: map<CategoryId, Category>,
    genres: map<GenreId, Genre>,
    titles: map<TitleId, Title>,
    genreTitles: map<GenreTitleId, GenreTitle>,
    reviews: map<ReviewId, Review>,
    comments: map<CommentId, Comment>)

  const EmptyDb: Db := Db(map[], map[], map[], map[], map[], map[], map[], map[])

  // ---------------------------------------------------------------------
  // Constraints the database enforces on every statement

  /** username and email are each unique. */
  predicate UsersUnique(users: map<UserId, User>)
  {
    forall a, b :: a in users && b in users && a != b ==>
      users[a].username != users[b].username && users[a].email != users[b].email
  }

  /** Code.user is a one-to-one field: no user owns two codes. */
  predicate CodesOnePerUser(codes: map<CodeId, Code>)
  {
    forall a, b :: a in codes && b in codes && a != b ==> codes[a].user != codes[b].user
  }

  predicate CategoriesUnique(categories: map<CategoryId, Category>)
  {
    forall a, b :: a in categories && b in categories && a != b ==>
      categories[a].name != categories[b].name && categories[a].slug != categories[b].slug
  }

  predicate GenresUnique(genres: map<GenreId, Genre>)
  {
    forall a, b :: a in genres && b in genres && a != b ==>
      genres[a].name != genres[b].name && genres[a].slug != genres[b].slug
  }

  /** The unique_author_review constraint on (title, author). */
  predicate ReviewsUnique(reviews: map<ReviewId, Review>)
  {
    forall a, b :: a in reviews && b in reviews && a != b ==>
      reviews[a].title != reviews[b].title || reviews[a].author != reviews[b].author
  }

  /** Every foreign key points at an existing row. */
  predicate KeysResolve(db: Db)
  {
    && (forall k :: k in db.codes ==> db.codes[k].user in db.users)
    && (forall k :: k in db.titles && db.titles[k].category.Some? ==> db.titles[k].category.value in db.categories)
    && (forall k :: k in db.genreTitles ==> db.genreTitles[k].title in db.titles && db.genreTitles[k].genre in db.genres)
    && (forall k :: k in db.reviews ==> db.reviews[k].title in db.titles && db.reviews[k].author in db.users)
    && (forall k :: k in db.comments ==> db.comments[k].review in db.reviews && db.comments[k].author in db.users)
  }

  predicate Constraints(db: Db)
  {
    && UsersUnique(db.users)
    && CodesOnePerUser(db.codes)
    && CategoriesUnique(db.categories)
    && GenresUnique(db.genres)
    && ReviewsUnique(db.reviews)
    && KeysResolve(db)
  }

  /** The score validators run in the serializer, not in the database: every
      write path of the application validates before it saves. */
  predicate ScoresInRange(reviews: map<ReviewId, Review>)
  {
    forall k :: k in reviews ==> 1 <= reviews[k].score <= 10
  }

  /** The invariant of the stored data. */
  predicate Valid(db: Db)
  {
    Constraints(db) && ScoresInRange(db.reviews)
  }

  // ---------------------------------------------------------------------
  // Writes. A statement takes effect only when the state it produces meets
  // every constraint; otherwise the database raises an integrity error and
  // nothing changes.

  function Commit(after: Db): Option<Db>
  {
    if Constraints(after) then Some(after) else None
  }

  function SaveUser(db: Db, id: UserId, row: User): Option<Db>
  {
    Commit(db.(users := db.users[id := row]))
  }

  function SaveCode(db: Db, id: CodeId, row: Code): Option<Db>
  {
    Commit(db.(codes := db.codes[id := row]))
  }

  function SaveCategory(db: Db, id: CategoryId, row: Category): Option<Db>
  {
    Commit(db.(categories := db.categories[id := row]))
  }

  function SaveGenre(db: Db, id: GenreId, row: Genre): Option<Db>
  {
    Commit(db.(genres := db.genres[id := row]))
  }

  function SaveTitle(db: Db, id: TitleId, row: Title): Option<Db>
  {
    Commit(db.(titles := db.titles[id := row]))
  }

  function SaveGenreTitle(db: Db, id: GenreTitleId, row: GenreTitle): Option<Db>
  {
    Commit(db.(genreTitles := db.genreTitles[id := row]))
  }

  function SaveReview(db: Db, id: ReviewId, row: Review): Option<Db>
  {
    Commit(db.(reviews := db.reviews[id := row]))
  }

  function SaveComment(db: Db, id: CommentId, row: Comment): Option<Db>
  {
    Commit(db.(comments := db.comments[id := row]))
  }

  /** An UPDATE without a WHERE clause: every code row gets the given owner
      and confirmation code. */
  function UpdateAllCodes(db: Db, user: UserId, code: string): Option<Db>
  {
    Commit(db.(codes := map k | k in db.codes :: Code(user, Some(code))))
  }

  /** Deleting a category sets the category of its titles to null. */
  function DeleteCategory(db: Db, c: CategoryId): Db
  {
    db.(categories := db.categories - {c},
        titles := map t | t in db.titles ::
          if db.titles[t].category == Some(c) then db.titles[t].(category := None) else db.titles[t])
  }

  /** Deleting a genre cascades to its GenreTitle links. */
  function DeleteGenre(db: Db, g: GenreId): Db
  {
    db.(genres := db.genres - {g},
        genreTitles := map k | k in db.genreTitles && db.genreTitles[k].genre != g :: db.genreTitles[k])
  }

  /** The reviews of a title. */
  function ReviewsOf(db: Db, t: TitleId): set<ReviewId>
  {
    set r | r in db.reviews && db.reviews[r].title == t
  }

  /** The reviews written by a user. */
  function ReviewsBy(db: Db, u: UserId): set<ReviewId>
  {
    set r | r in db.reviews && db.reviews[r].author == u
  }

  /** Deleting a title cascades to its GenreTitle links and its reviews, and
      through those reviews to their comments. */
  function DeleteTitle(db: Db, t: TitleId): Db
  {
    var gone := ReviewsOf(db, t);
    db.(titles := db.titles - {t},
        genreTitles := map k | k in db.genreTitles && db.genreTitles[k].title != t :: db.genreTitles[k],
        reviews := db.reviews - gone,
        comments := map k | k in db.comments && db.comments[k].review !in gone :: db.comments[k])
  }

  /** Deleting a user cascades to their code, their reviews (and through them
      the comments on those reviews) and their own comments. */
  function DeleteUser(db: Db, u: UserId): Db
  {
    var gone := ReviewsBy(db, u);
    db.(users := db.users - {u},
        codes := map k | k in db.codes && db.codes[k].user != u :: db.codes[k],
        reviews := db.reviews - gone,
        comments := map k | k in db.comments && db.comments[k].author != u && db.comments[k].review !in gone ::
          db.comments[k])
  }

  /** Deleting a review cascades to its comments. */
  function DeleteReview(db: Db, r: ReviewId): Db
  {
    db.(reviews := db.reviews - {r},
        comments := map k | k in db.comments && db.comments[k].review != r :: db.comments[k])
  }

  function DeleteComment(db: Db, c: CommentId): Db
  {
    db.(comments := db.comments - {c})
  }

  // ---------------------------------------------------------------------
  // When a write commits

  /** A user row whose username and email no other row has commits, whether
      it is a new row or replaces an existing one. */
  lemma SaveUserCommits(db: Db, id: UserId, row: User)
    requires Constraints(db)
    requires forall k :: k in db.users && k != id ==>
      db.users[k].username != row.username && db.users[k].email != row.email
    ensures SaveUser(db, id, row) == Some(db.(users := db.users[id := row]))
  {
  }

  lemma SaveCodeCommits(db: Db, id: CodeId, row: Code)
    requires Constraints(db)
    requires row.user in db.users
    requires forall k :: k in db.codes && k != id ==> db.codes[k].user != row.user
    ensures SaveCode(db, id, row) == Some(db.(codes := db.codes[id := row]))
  {
  }

  lemma SaveReviewCommits(db: Db, id: ReviewId, row: Review)
    requires Constraints(db)
    requires row.title in db.titles && row.author in db.users
    requires forall k :: k in db.reviews && k != id ==>
      db.reviews[k].title != row.title || db.reviews[k].author != row.author
    ensures SaveReview(db, id, row) == Some(db.(reviews := db.reviews[id := row]))
  {
  }

  /** A write that commits and leaves the reviews alone keeps the stored
      data valid. */
  lemma CommittedValid(db: Db, d: Db)
    requires ScoresInRange(db.reviews) && Constraints(d) && d.reviews == db.reviews
    ensures Valid(d)
  {
  }

  /** A review whose score passed the validators keeps the stored data
      valid when it commits. */
  lemma SavedReviewValid(db: Db, id: ReviewId, row: Review)
    requires Valid(db) && 1 <= row.score <= 10
    requires SaveReview(db, id, row).Some?
    ensures Valid(SaveReview(db, id, row).value)
  {
  }

  lemma SaveCommentCommits(db: Db, id: CommentId, row: Comment)
    requires Constraints(db)
    requires row.review in db.reviews && row.author in db.users
    ensures SaveComment(db, id, row) == Some(db.(comments := db.comments[id := row]))
  {
  }

  /** A user row whose username or email another row already has is
      refused by the unique constraints. */
  lemma SaveUserRefusesDuplicate(db: Db, id: UserId, row: User, k: UserId)
    requires k in db.users && k != id
    requires db.users[k].username == row.username || db.users[k].email == row.email
    ensures SaveUser(db, id, row).None?
  {
    var after := db.users[id := row];
    assert k in after && id in after && after[k] == db.users[k] && after[id] == row;
  }

  /** A second code row for a user who already owns one is refused by the
      one-to-one constraint. */
  lemma SaveCodeRefusesDuplicate(db: Db, id: CodeId, row: Code, k: CodeId)
    requires k in db.codes && k != id && db.codes[k].user == row.user
    ensures SaveCode(db, id, row).None?
  {
    var after := db.codes[id := row];
    assert k in after && id in after && after[k] == db.codes[k] && after[id] == row;
  }

  lemma SaveCategoryRefusesDuplicate(db: Db, id: CategoryId, row: Category, k: CategoryId)
    requires k in db.categories && k != id
    requires db.categories[k].name == row.name || db.categories[k].slug == row.slug
    ensures SaveCategory(db, id, row).None?
  {
    var after := db.categories[id := row];
    assert k in after && id in after && after[k] == db.categories[k] && after[id] == row;
  }

  lemma SaveGenreRefusesDuplicate(db: Db, id: GenreId, row: Genre, k: GenreId)
    requires k in db.genres && k != id
    requires db.genres[k].name == row.name || db.genres[k].slug == row.slug
    ensures SaveGenre(db, id, row).None?
  {
    var after := db.genres[id := row];
    assert k in after && id in after && after[k] == db.genres[k] && after[id] == row;
  }

  /** A second review of the same title by the same author is refused by
      unique_author_review. */
  lemma SaveReviewRefusesDuplicate(db: Db, id: ReviewId, row: Review, k: ReviewId)
    requires k in db.reviews && k != id
    requires db.reviews[k].title == row.title && db.reviews[k].author == row.author
    ensures SaveReview(db, id, row).None?
  {
    var after := db.reviews[id := row];
    assert k in after && id in after && after[k] == db.reviews[k] && after[id] == row;
  }

  /** A row whose foreign key points at no row is refused. */
  lemma SaveReviewRefusesDangling(db: Db, id: ReviewId, row: Review)
    requires row.title !in db.titles || row.author !in db.users
    ensures SaveReview(db, id, row).None?
  {
    var after := db.(reviews := db.reviews[id := row]);
    assert id in after.reviews && after.reviews[id] == row;
  }

  lemma SaveCommentRefusesDangling(db: Db, id: CommentId, row: Comment)
    requires row.review !in db.reviews || row.author !in db.users
    ensures SaveComment(db, id, row).None?
  {
    var after := db.(comments := db.comments[id := row]);
    assert id in after.comments && after.comments[id] == row;
  }

  /** Two distinct keys of a map with at least two entries. */
  lemma TwoKeys<V>(m: map<nat, V>) returns (a: nat, b: nat)
    requires |m| >= 2
    ensures a in m && b in m && a != b
  {
    a :| a in m;
    var rest := m.Keys - {a};
    assert |rest| == |m.Keys| - 1 >= 1;
    b :| b in rest;
  }

  /** Giving every code row the same owner keeps Code.user one-to-one
      exactly when there is at most one row. */
  lemma {:induction false} SameOwnerOnePerUser(codes: map<CodeId, Code>, user: UserId, code: string)
    ensures CodesOnePerUser(map k | k in codes :: Code(user, Some(code))) <==> |codes| <= 1
  {
    var after := map k | k in codes :: Code(user, Some(code));
    if |codes| >= 2 {
      var a, b := TwoKeys(codes);
      assert after[a].user == after[b].user;
    } else {
      forall a, b | a in after && b in after
        ensures a == b
      {
        if a != b {
          assert {a, b} <= codes.Keys;
          assert |{a, b}| == 2;
          SubsetCardinality({a, b}, codes.Keys);
        }
      }
    }
  }

  /** The unfiltered update of every code row commits exactly when there is
      at most one code row: with two rows or more the one-to-one constraint
      on Code.user is violated. */
  lemma UpdateAllCodesCommits(db: Db, user: UserId, code: string)
    requires Constraints(db) && user in db.users
    ensures UpdateAllCodes(db, user, code).Some? <==> |db.codes| <= 1
  {
    var after := db.(codes := map k | k in db.codes :: Code(user, Some(code)));
    SameOwnerOnePerUser(db.codes, user, code);
    assert KeysResolve(after);
    assert Constraints(after) <==> CodesOnePerUser(after.codes);
  }

  lemma SubsetCardinality(small: set<nat>, large: set<nat>)
    requires small <= large
    ensures |small| <= |large|
  {
    assert large == small + (large - small);
  }

  // ---------------------------------------------------------------------
  // The on_delete rules keep the invariant and touch nothing else

  /** Every row of small is the row of big under the same key. */
  predicate Submap<V(==)>(small: map<nat, V>, big: map<nat, V>)
  {
    forall k :: k in small ==> k in big && small[k] == big[k]
  }

  lemma UsersUniqueSub(small: map<UserId, User>, big: map<UserId, User>)
    requires UsersUnique(big) && Submap(small, big)
    ensures UsersUnique(small)
  {
  }

  lemma CodesOnePerUserSub(small: map<CodeId, Code>, big: map<CodeId, Code>)
    requires CodesOnePerUser(big) && Submap(small, big)
    ensures CodesOnePerUser(small)
  {
  }

  lemma CategoriesUniqueSub(small: map<CategoryId, Category>, big: map<CategoryId, Category>)
    requires CategoriesUnique(big) && Submap(small, big)
    ensures CategoriesUnique(small)
  {
  }

  lemma GenresUniqueSub(small: map<GenreId, Genre>, big: map<GenreId, Genre>)
    requires GenresUnique(big) && Submap(small, big)
    ensures GenresUnique(small)
  {
  }

  lemma ReviewsSub(small: map<ReviewId, Review>, big: map<ReviewId, Review>)
    requires ReviewsUnique(big) && ScoresInRange(big) && Submap(small, big)
    ensures ReviewsUnique(small) && ScoresInRange(small)
  {
  }

  /** SET_NULL keeps every key resolving: a title either loses its category
      or keeps one that is not the deleted one. */
  lemma DeleteCategoryResolves(db: Db, c: CategoryId)
    requires KeysResolve(db)
    ensures KeysResolve(DeleteCategory(db, c))
  {
  }

  lemma DeleteCategoryValid(db: Db, c: CategoryId)
    requires Valid(db)
    ensures Valid(DeleteCategory(db, c))
  {
    CategoriesUniqueSub(db.categories - {c}, db.categories);
    DeleteCategoryResolves(db, c);
  }

  /** SET_NULL: every title stays; those that referenced the category lose
      their category, the others are unchanged. */
  lemma DeleteCategoryNullsTitles(db: Db, c: CategoryId)
    ensures var d := DeleteCategory(db, c);
      && d.titles.Keys == db.titles.Keys
      && (forall t :: t in db.titles ==>
            d.titles[t].category == (if db.titles[t].category == Some(c) then None else db.titles[t].category)
            && d.titles[t].name == db.titles[t].name && d.titles[t].year == db.titles[t].year
            && d.titles[t].description == db.titles[t].description)
      && d.categories == db.categories - {c}
      && d.users == db.users && d.codes == db.codes && d.genres == db.genres && d.genreTitles == db.genreTitles
      && d.reviews == db.reviews && d.comments == db.comments
  {
  }

  lemma DeleteGenreResolves(db: Db, g: GenreId)
    requires KeysResolve(db)
    ensures KeysResolve(DeleteGenre(db, g))
  {
  }

  lemma DeleteGenreValid(db: Db, g: GenreId)
    requires Valid(db)
    ensures Valid(DeleteGenre(db, g))
  {
    GenresUniqueSub(db.genres - {g}, db.genres);
    DeleteGenreResolves(db, g);
  }

  /** The rows a title deletion keeps are rows of the database. */
  lemma DeleteTitleShrinks(db: Db, t: TitleId)
    ensures Submap(DeleteTitle(db, t).reviews, db.reviews)
  {
  }

  lemma DeleteTitleResolves(db: Db, t: TitleId)
    requires KeysResolve(db)
    ensures KeysResolve(DeleteTitle(db, t))
  {
    var d := DeleteTitle(db, t);
    forall k | k in d.comments
      ensures d.comments[k].review in d.reviews
    {
      assert db.comments[k].review !in ReviewsOf(db, t);
    }
  }

  lemma DeleteTitleValid(db: Db, t: TitleId)
    requires Valid(db)
    ensures Valid(DeleteTitle(db, t))
  {
    DeleteTitleShrinks(db, t);
    ReviewsSub(DeleteTitle(db, t).reviews, db.reviews);
    DeleteTitleResolves(db, t);
  }

  /** Deleting a title removes exactly its links, its reviews and the
      comments on its reviews, and changes nothing else. */
  lemma DeleteTitleCascade(db: Db, t: TitleId)
    requires KeysResolve(db)
    ensures var d := DeleteTitle(db, t);
      && d.users == db.users && d.codes == db.codes
      && d.categories == db.categories && d.genres == db.genres
      && d.titles == db.titles - {t}
      && (forall k :: k in d.genreTitles <==> k in db.genreTitles && db.genreTitles[k].title != t)
      && (forall r :: r in d.reviews <==> r in db.reviews && db.reviews[r].title != t)
      && (forall k :: k in d.comments <==> k in db.comments && db.reviews[db.comments[k].review].title != t)
      && (forall k :: k in d.genreTitles ==> d.genreTitles[k] == db.genreTitles[k])
      && (forall r :: r in d.reviews ==> d.reviews[r] == db.reviews[r])
      && (forall k :: k in d.comments ==> d.comments[k] == db.comments[k])
  {
  }

  /** The rows a user deletion keeps are rows of the database. */
  lemma DeleteUserShrinks(db: Db, u: UserId)
    ensures var d := DeleteUser(db, u);
      Submap(d.users, db.users) && Submap(d.codes, db.codes) && Submap(d.reviews, db.reviews)
  {
  }

  lemma DeleteUserResolves(db: Db, u: UserId)
    requires KeysResolve(db)
    ensures KeysResolve(DeleteUser(db, u))
  {
    var d := DeleteUser(db, u);
    forall k | k in d.comments
      ensures d.comments[k].review in d.reviews
    {
      assert db.comments[k].review !in ReviewsBy(db, u);
    }
  }

  lemma DeleteUserValid(db: Db, u: UserId)
    requires Valid(db)
    ensures Valid(DeleteUser(db, u))
  {
    var d := DeleteUser(db, u);
    DeleteUserShrinks(db, u);
    UsersUniqueSub(d.users, db.users);
    CodesOnePerUserSub(d.codes, db.codes);
    ReviewsSub(d.reviews, db.reviews);
    DeleteUserResolves(db, u);
  }

  /** Deleting a user removes their code, their reviews with every comment
      on them, and their comments elsewhere; nothing else changes. */
  lemma DeleteUserCascade(db: Db, u: UserId)
    requires KeysResolve(db)
    ensures var d := DeleteUser(db, u);
      && d.users == db.users - {u}
      && d.categories == db.categories && d.genres == db.genres
      && d.titles == db.titles && d.genreTitles == db.genreTitles
      && (forall k :: k in d.codes <==> k in db.codes && db.codes[k].user != u)
      && (forall r :: r in d.reviews <==> r in db.reviews && db.reviews[r].author != u)
      && (forall k :: k in d.comments <==>
            k in db.comments && db.comments[k].author != u && db.reviews[db.comments[k].review].author != u)
      && (forall k :: k in d.codes ==> d.codes[k] == db.codes[k])
      && (forall r :: r in d.reviews ==> d.reviews[r] == db.reviews[r])
      && (forall k :: k in d.comments ==> d.comments[k] == db.comments[k])
  {
  }

  lemma DeleteReviewResolves(db: Db, r: ReviewId)
    requires KeysResolve(db)
    ensures KeysResolve(DeleteReview(db, r))
  {
  }

  lemma DeleteReviewValid(db: Db, r: ReviewId)
    requires Valid(db)
    ensures Valid(DeleteReview(db, r))
  {
    ReviewsSub(db.reviews - {r}, db.reviews);
    DeleteReviewResolves(db, r);
  }

  lemma DeleteCommentValid(db: Db, c: CommentId)
    requires Valid(db)
    ensures Valid(DeleteComment(db, c))
  {
    assert KeysResolve(DeleteComment(db, c));
  }

  // ---------------------------------------------------------------------
  // The rating of a title

  lemma {:induction false} LeastOf(s: set<nat>) returns (k: nat)
    requires s != {}
    ensures k in s && forall j :: j in s ==> k <= j
    decreases s
  {
    var x :| x in s;
    if s == {x} {
      k := x;
    } else {
      var m := LeastOf(s - {x});
      k := if x < m then x else m;
      forall j | j in s
        ensures k <= j
      {
        if j != x {
          assert j in s - {x};
        }
      }
    }
  }

  lemma MinExists(s: set<nat>)
    requires s != {}
    ensures exists k :: k in s && forall j :: j in s ==> k <= j
  {
    var k := LeastOf(s);
  }

  function MinKey(s: set<nat>): (k: nat)
    requires s != {}
    ensures k in s && forall j :: j in s ==> k <= j
  {
    MinExists(s);
    var k :| k in s && forall j :: j in s ==> k <= j; k
  }

  /** The scores of the reviews of title t among the review rows ids, in
      increasing order of review id. */
  function ScoresAmong(reviews: map<ReviewId, Review>, t: TitleId, ids: set<ReviewId>): seq<int>
    requires ids <= reviews.Keys
    decreases ids
  {
    if ids == {} then []
    else
      var k := MinKey(ids);
      (if reviews[k].title == t then [reviews[k].score] else []) + ScoresAmong(reviews, t, ids - {k})
  }

  /** Title.rating over the stored reviews. */
  function TitleRating(db: Db, t: TitleId): Option<real>
  {
    Rating.RatingOf(ScoresAmong(db.reviews, t, db.reviews.Keys))
  }

  /** The rows among ids that review title t. */
  function TitledAmong(reviews: map<ReviewId, Review>, t: TitleId, ids: set<ReviewId>): set<ReviewId>
    requires ids <= reviews.Keys
  {
    set r | r in ids && reviews[r].title == t
  }

  /** There is one score per review of the title. */
  lemma {:induction false} ScoresAmongCount(reviews: map<ReviewId, Review>, t: TitleId, ids: set<ReviewId>)
    requires ids <= reviews.Keys
    ensures |ScoresAmong(reviews, t, ids)| == |TitledAmong(reviews, t, ids)|
    decreases ids
  {
    if ids != {} {
      var k := MinKey(ids);
      var tail := ScoresAmong(reviews, t, ids - {k});
      ScoresAmongCount(reviews, t, ids - {k});
      var rest := TitledAmong(reviews, t, ids - {k});
      var all := TitledAmong(reviews, t, ids);
      if reviews[k].title == t {
        assert ScoresAmong(reviews, t, ids) == [reviews[k].score] + tail;
        assert k !in rest;
        assert all == rest + {k};
      } else {
        assert ScoresAmong(reviews, t, ids) == tail;
        assert all == rest;
      }
    }
  }

  lemma {:induction false} ScoresAmongWithin(reviews: map<ReviewId, Review>, t: TitleId, ids: set<ReviewId>)
    requires ids <= reviews.Keys
    requires ScoresInRange(reviews)
    ensures Rating.AllWithin(ScoresAmong(reviews, t, ids), 1, 10)
    decreases ids
  {
    if ids != {} {
      var k := MinKey(ids);
      ScoresAmongWithin(reviews, t, ids - {k});
    }
  }

  /** The least key of a set stays the least once another key is removed. */
  lemma MinKeyWithout(ids: set<nat>, r: nat)
    requires ids != {} && MinKey(ids) != r
    ensures MinKey(ids) in ids - {r} && MinKey(ids - {r}) == MinKey(ids)
  {
    var k := MinKey(ids);
    assert k in ids - {r};
    var k' := MinKey(ids - {r});
    assert k <= k' && k' <= k;
  }

  /** Every review among ids contributes its own score, and only a review
      of title t contributes one: removing review r takes exactly its score
      out of the aggregated scores, whatever order they are read in. */
  lemma {:induction false} ScoresAmongPick(reviews: map<ReviewId, Review>, t: TitleId, ids: set<ReviewId>, r: ReviewId)
    requires ids <= reviews.Keys && r in ids
    ensures multiset(ScoresAmong(reviews, t, ids)) ==
      multiset(ScoresAmong(reviews, t, ids - {r})) +
      (if reviews[r].title == t then multiset{reviews[r].score} else multiset{})
    decreases ids
  {
    var k := MinKey(ids);
    if k != r {
      ScoresAmongPick(reviews, t, ids - {k}, r);
      MinKeyWithout(ids, r);
      assert ids - {k} - {r} == ids - {r} - {k};
    }
  }

  /** The rating is none exactly when the title has no reviews; otherwise it
      is the average of its scores, one score per review, and lies in
      [1, 10]. */
  lemma TitleRatingMeaning(db: Db, t: TitleId)
    requires ScoresInRange(db.reviews)
    ensures TitleRating(db, t).None? <==> ReviewsOf(db, t) == {}
    ensures |ScoresAmong(db.reviews, t, db.reviews.Keys)| == |ReviewsOf(db, t)|
    ensures ReviewsOf(db, t) != {} ==> TitleRating(db, t) == Rating.Average(ScoresAmong(db.reviews, t, db.reviews.Keys))
    ensures TitleRating(db, t).Some? ==> 1.0 <= TitleRating(db, t).value <= 10.0
  {
    var scores := ScoresAmong(db.reviews, t, db.reviews.Keys);
    ScoresAmongCount(db.reviews, t, db.reviews.Keys);
    ScoresAmongWithin(db.reviews, t, db.reviews.Keys);
    assert TitledAmong(db.reviews, t, db.reviews.Keys) == ReviewsOf(db, t);
    Rating.RatingOfScores(scores);
  }
}
