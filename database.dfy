/** The database as mutable state: a table per model that statements update in
    place, the primary-key sequence, and the outbox of the mail backend. */
module Database {
  import opened Wrappers
  import opened Models

  /** A message handed to the mail backend: its recipient list and its body
      (the subject and sender are constants of the site). */
  datatype Mail = Mail(recipients: seq<string>, body: string)

  /** Every key of table m is below next. */
  predicate Below<V>(m: map<nat, V>, next: nat)
  {
    forall k :: k in m ==> k < next
  }

  /** Every primary key in use is below next. */
  predicate KeysBelow(db: Db, next: nat)
  {
    && Below(db.users, next)
    && Below(db.codes, next)
    && Below(db.categories, next)
    && Below(db.genres, next)
    && Below(db.titles, next)
    && Below(db.genreTitles, next)
    && Below(db.reviews, next)
    && Below(db.comments, next)
  }

  /** Inserting under next into a table whose keys are below next leaves
      every key below the one after. */
  lemma BelowInsert<V>(m: map<nat, V>, next: nat, v: V)
    requires Below(m, next)
    ensures Below(m[next := v], next + 1)
  {
  }

  lemma KeysBelowRaise(db: Db, next: nat)
    requires KeysBelow(db, next)
    ensures KeysBelow(db, next + 1)
  {
  }

  /** Every table of small holds a subset of the keys of the same table of big. */
  predicate KeysWithin(small: Db, big: Db)
  {
    && small.users.Keys <= big.users.Keys
    && small.codes.Keys <= big.codes.Keys
    && small.categories.Keys <= big.categories.Keys
    && small.genres.Keys <= big.genres.Keys
    && small.titles.Keys <= big.titles.Keys
    && small.genreTitles.Keys <= big.genreTitles.Keys
    && small.reviews.Keys <= big.reviews.Keys
    && small.comments.Keys <= big.comments.Keys
  }

  lemma KeysBelowWithin(small: Db, big: Db, next: nat)
    requires KeysBelow(big, next) && KeysWithin(small, big)
    ensures KeysBelow(small, next)
  {
  }

  /** Deletions and updates of existing rows add no key. */
  lemma DeleteCategoryKeys(db: Db, c: nat)
    ensures KeysWithin(Models.DeleteCategory(db, c), db)
  {
  }

  lemma DeleteGenreKeys(db: Db, g: nat)
    ensures KeysWithin(Models.DeleteGenre(db, g), db)
  {
  }

  lemma DeleteTitleKeys(db: Db, t: nat)
    ensures KeysWithin(Models.DeleteTitle(db, t), db)
  {
  }

  lemma DeleteUserKeys(db: Db, u: nat)
    ensures KeysWithin(Models.DeleteUser(db, u), db)
  {
  }

  lemma DeleteReviewKeys(db: Db, r: nat)
    ensures KeysWithin(Models.DeleteReview(db, r), db)
  {
  }

  lemma DeleteCommentKeys(db: Db, c: nat)
    ensures KeysWithin(Models.DeleteComment(db, c), db)
  {
  }

  lemma SaveUserKeys(db: Db, id: UserId, row: User)
    requires id in db.users && SaveUser(db, id, row).Some?
    ensures KeysWithin(SaveUser(db, id, row).value, db)
  {
  }

  lemma UpdateAllCodesKeys(db: Db, user: UserId, code: string)
    requires Models.UpdateAllCodes(db, user, code).Some?
    ensures KeysWithin(Models.UpdateAllCodes(db, user, code).value, db)
  {
  }

  class Store {
    var users: map<UserId, User>
    var codes: map<CodeId, Code>
    var categories: map<CategoryId, Category>
    var genres: map<GenreId, Genre>
    var titles: map<TitleId, Title>
    var genreTitles: map<GenreTitleId, GenreTitle>
    var reviews: map<ReviewId, Review>
    var comments: map<CommentId, Comment>
    var nextId: nat
    var outbox: seq<Mail>

    /** The tables as one value. */
    function Snapshot(): Db
      reads this`users, this`codes, this`categories, this`genres, this`titles, this`genreTitles, this`reviews, this`comments
    {
      Db(users, codes, categories, genres, titles, genreTitles, reviews, comments)
    }

    ghost predicate Valid()
      reads this`users, this`codes, this`categories, this`genres, this`titles, this`genreTitles, this`reviews, this`comments, this`nextId
    {
      Models.Valid(Snapshot()) && KeysBelow(Snapshot(), nextId)
    }

    constructor ()
      ensures Valid()
      ensures Snapshot() == EmptyDb && outbox == []
    {
      users, codes, categories, genres := map[], map[], map[], map[];
      titles, genreTitles, reviews, comments := map[], map[], map[], map[];
      nextId, outbox := 0, [];
    }

    /** Inserts a user row under a fresh key. */
    method CreateUser(row: User) returns (id: Option<UserId>)
      requires Valid()
      modifies this
      ensures Valid() && outbox == old(outbox)
      ensures match SaveUser(old(Snapshot()), old(nextId), row)
        case Some(d) => id == Some(old(nextId)) && Snapshot() == d && nextId == old(nextId) + 1
        case None => id == None && Snapshot() == old(Snapshot()) && nextId == old(nextId)
    {
      var r := SaveUser(Snapshot(), nextId, row);
      if r.Some? {
        KeysBelowRaise(Snapshot(), nextId);
        BelowInsert(users, nextId, row);
        CommittedValid(Snapshot(), r.value);
        users := r.value.users;
        assert Snapshot() == r.value;
        id := Some(nextId);
        nextId := nextId + 1;
      } else {
        id := None;
      }
    }

    /** Updates the user row under key id. */
    method UpdateUser(id: UserId, row: User) returns (ok: bool)
      requires Valid() && id in users
      modifies this
      ensures Valid() && outbox == old(outbox) && nextId == old(nextId)
      ensures match SaveUser(old(Snapshot()), id, row)
        case Some(d) => ok && Snapshot() == d
        case None => !ok && Snapshot() == old(Snapshot())
    {
      var r := SaveUser(Snapshot(), id, row);
      ok := r.Some?;
      if ok {
        SaveUserKeys(Snapshot(), id, row);
        KeysBelowWithin(r.value, Snapshot(), nextId);
        CommittedValid(Snapshot(), r.value);
        users := r.value.users;
        assert Snapshot() == r.value;
      }
    }

    method CreateCode(row: Code) returns (id: Option<CodeId>)
      requires Valid()
      modifies this
      ensures Valid() && outbox == old(outbox)
      ensures match SaveCode(old(Snapshot()), old(nextId), row)
        case Some(d) => id == Some(old(nextId)) && Snapshot() == d && nextId == old(nextId) + 1
        case None => id == None && Snapshot() == old(Snapshot()) && nextId == old(nextId)
    {
      var r := SaveCode(Snapshot(), nextId, row);
      if r.Some? {
        KeysBelowRaise(Snapshot(), nextId);
        BelowInsert(codes, nextId, row);
        CommittedValid(Snapshot(), r.value);
        codes := r.value.codes;
        assert Snapshot() == r.value;
        id := Some(nextId);
        nextId := nextId + 1;
      } else {
        id := None;
      }
    }

    /** Sets the owner and the confirmation code of every code row. */
    method UpdateAllCodes(user: UserId, code: string) returns (ok: bool)
      requires Valid()
      modifies this
      ensures Valid() && outbox == old(outbox) && nextId == old(nextId)
      ensures match Models.UpdateAllCodes(old(Snapshot()), user, code)
        case Some(d) => ok && Snapshot() == d
        case None => !ok && Snapshot() == old(Snapshot())
    {
      var r := Models.UpdateAllCodes(Snapshot(), user, code);
      ok := r.Some?;
      if ok {
        UpdateAllCodesKeys(Snapshot(), user, code);
        KeysBelowWithin(r.value, Snapshot(), nextId);
        CommittedValid(Snapshot(), r.value);
        codes := r.value.codes;
        assert Snapshot() == r.value;
      }
    }

    method CreateCategory(row: Category) returns (id: Option<CategoryId>)
      requires Valid()
      modifies this
      ensures Valid() && outbox == old(outbox)
      ensures match SaveCategory(old(Snapshot()), old(nextId), row)
        case Some(d) => id == Some(old(nextId)) && Snapshot() == d && nextId == old(nextId) + 1
        case None => id == None && Snapshot() == old(Snapshot()) && nextId == old(nextId)
    {
      var r := SaveCategory(Snapshot(), nextId, row);
      if r.Some? {
        KeysBelowRaise(Snapshot(), nextId);
        BelowInsert(categories, nextId, row);
        CommittedValid(Snapshot(), r.value);
        categories := r.value.categories;
        assert Snapshot() == r.value;
        id := Some(nextId);
        nextId := nextId + 1;
      } else {
        id := None;
      }
    }

    method CreateGenre(row: Genre) returns (id: Option<GenreId>)
      requires Valid()
      modifies this
      ensures Valid() && outbox == old(outbox)
      ensures match SaveGenre(old(Snapshot()), old(nextId), row)
        case Some(d) => id == Some(old(nextId)) && Snapshot() == d && nextId == old(nextId) + 1
        case None => id == None && Snapshot() == old(Snapshot()) && nextId == old(nextId)
    {
      var r := SaveGenre(Snapshot(), nextId, row);
      if r.Some? {
        KeysBelowRaise(Snapshot(), nextId);
        BelowInsert(genres, nextId, row);
        CommittedValid(Snapshot(), r.value);
        genres := r.value.genres;
        assert Snapshot() == r.value;
        id := Some(nextId);
        nextId := nextId + 1;
      } else {
        id := None;
      }
    }

    method CreateTitle(row: Title) returns (id: Option<TitleId>)
      requires Valid()
      modifies this
      ensures Valid() && outbox == old(outbox)
      ensures match SaveTitle(old(Snapshot()), old(nextId), row)
        case Some(d) => id == Some(old(nextId)) && Snapshot() == d && nextId == old(nextId) + 1
        case None => id == None && Snapshot() == old(Snapshot()) && nextId == old(nextId)
    {
      var r := SaveTitle(Snapshot(), nextId, row);
      if r.Some? {
        KeysBelowRaise(Snapshot(), nextId);
        BelowInsert(titles, nextId, row);
        CommittedValid(Snapshot(), r.value);
        titles := r.value.titles;
        assert Snapshot() == r.value;
        id := Some(nextId);
        nextId := nextId + 1;
      } else {
        id := None;
      }
    }

    method CreateGenreTitle(row: GenreTitle) returns (id: Option<GenreTitleId>)
      requires Valid()
      modifies this
      ensures Valid() && outbox == old(outbox)
      ensures match SaveGenreTitle(old(Snapshot()), old(nextId), row)
        case Some(d) => id == Some(old(nextId)) && Snapshot() == d && nextId == old(nextId) + 1
        case None => id == None && Snapshot() == old(Snapshot()) && nextId == old(nextId)
    {
      var r := SaveGenreTitle(Snapshot(), nextId, row);
      if r.Some? {
        KeysBelowRaise(Snapshot(), nextId);
        BelowInsert(genreTitles, nextId, row);
        CommittedValid(Snapshot(), r.value);
        genreTitles := r.value.genreTitles;
        assert Snapshot() == r.value;
        id := Some(nextId);
        nextId := nextId + 1;
      } else {
        id := None;
      }
    }

    /** Inserts a review row. The score must already have passed the field's
        validators, which the database does not check. */
    method CreateReview(row: Review) returns (id: Option<ReviewId>)
      requires Valid() && 1 <= row.score <= 10
      modifies this
      ensures Valid() && outbox == old(outbox)
      ensures match SaveReview(old(Snapshot()), old(nextId), row)
        case Some(d) => id == Some(old(nextId)) && Snapshot() == d && nextId == old(nextId) + 1
        case None => id == None && Snapshot() == old(Snapshot()) && nextId == old(nextId)
    {
      var r := SaveReview(Snapshot(), nextId, row);
      if r.Some? {
        KeysBelowRaise(Snapshot(), nextId);
        BelowInsert(reviews, nextId, row);
        SavedReviewValid(Snapshot(), nextId, row);
        reviews := r.value.reviews;
        assert Snapshot() == r.value;
        id := Some(nextId);
        nextId := nextId + 1;
      } else {
        id := None;
      }
    }

    method CreateComment(row: Comment) returns (id: Option<CommentId>)
      requires Valid()
      modifies this
      ensures Valid() && outbox == old(outbox)
      ensures match SaveComment(old(Snapshot()), old(nextId), row)
        case Some(d) => id == Some(old(nextId)) && Snapshot() == d && nextId == old(nextId) + 1
        case None => id == None && Snapshot() == old(Snapshot()) && nextId == old(nextId)
    {
      var r := SaveComment(Snapshot(), nextId, row);
      if r.Some? {
        KeysBelowRaise(Snapshot(), nextId);
        BelowInsert(comments, nextId, row);
        CommittedValid(Snapshot(), r.value);
        comments := r.value.comments;
        assert Snapshot() == r.value;
        id := Some(nextId);
        nextId := nextId + 1;
      } else {
        id := None;
      }
    }

    /** Runs the deletion of category c with its SET_NULL rule. */
    method DeleteCategory(c: CategoryId)
      requires Valid()
      modifies this
      ensures Valid() && outbox == old(outbox) && nextId == old(nextId)
      ensures Snapshot() == Models.DeleteCategory(old(Snapshot()), c)
    {
      var d := Models.DeleteCategory(Snapshot(), c);
      DeleteCategoryValid(Snapshot(), c);
      DeleteCategoryKeys(Snapshot(), c);
      KeysBelowWithin(d, Snapshot(), nextId);
      categories, titles := d.categories, d.titles;
      assert Snapshot() == d;
    }

    /** Runs the deletion of genre g with its cascade. */
    method DeleteGenre(g: GenreId)
      requires Valid()
      modifies this
      ensures Valid() && outbox == old(outbox) && nextId == old(nextId)
      ensures Snapshot() == Models.DeleteGenre(old(Snapshot()), g)
    {
      var d := Models.DeleteGenre(Snapshot(), g);
      DeleteGenreValid(Snapshot(), g);
      DeleteGenreKeys(Snapshot(), g);
      KeysBelowWithin(d, Snapshot(), nextId);
      genres, genreTitles := d.genres, d.genreTitles;
      assert Snapshot() == d;
    }

    /** Runs the deletion of title t with its cascades. */
    method DeleteTitle(t: TitleId)
      requires Valid()
      modifies this
      ensures Valid() && outbox == old(outbox) && nextId == old(nextId)
      ensures Snapshot() == Models.DeleteTitle(old(Snapshot()), t)
    {
      var d := Models.DeleteTitle(Snapshot(), t);
      DeleteTitleValid(Snapshot(), t);
      DeleteTitleKeys(Snapshot(), t);
      KeysBelowWithin(d, Snapshot(), nextId);
      titles, genreTitles, reviews, comments := d.titles, d.genreTitles, d.reviews, d.comments;
      assert Snapshot() == d;
    }

    /** Runs the deletion of user u with its cascades. */
    method DeleteUser(u: UserId)
      requires Valid()
      modifies this
      ensures Valid() && outbox == old(outbox) && nextId == old(nextId)
      ensures Snapshot() == Models.DeleteUser(old(Snapshot()), u)
    {
      var d := Models.DeleteUser(Snapshot(), u);
      DeleteUserValid(Snapshot(), u);
      DeleteUserKeys(Snapshot(), u);
      KeysBelowWithin(d, Snapshot(), nextId);
      users, codes, reviews, comments := d.users, d.codes, d.reviews, d.comments;
      assert Snapshot() == d;
    }

    /** Runs the deletion of review r with its cascade. */
    method DeleteReview(r: ReviewId)
      requires Valid()
      modifies this
      ensures Valid() && outbox == old(outbox) && nextId == old(nextId)
      ensures Snapshot() == Models.DeleteReview(old(Snapshot()), r)
    {
      var d := Models.DeleteReview(Snapshot(), r);
      DeleteReviewValid(Snapshot(), r);
      DeleteReviewKeys(Snapshot(), r);
      KeysBelowWithin(d, Snapshot(), nextId);
      reviews, comments := d.reviews, d.comments;
      assert Snapshot() == d;
    }

    method DeleteComment(c: CommentId)
      requires Valid()
      modifies this
      ensures Valid() && outbox == old(outbox) && nextId == old(nextId)
      ensures Snapshot() == Models.DeleteComment(old(Snapshot()), c)
    {
      var d := Models.DeleteComment(Snapshot(), c);
      DeleteCommentValid(Snapshot(), c);
      DeleteCommentKeys(Snapshot(), c);
      KeysBelowWithin(d, Snapshot(), nextId);
      comments := d.comments;
      assert Snapshot() == d;
    }

    /** Hands a message to the mail backend. */
    method SendMail(m: Mail)
      modifies this`outbox
      ensures outbox == old(outbox) + [m]
    {
      outbox := outbox + [m];
    }
  }
}
