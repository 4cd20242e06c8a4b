/** The endpoints of the API that change or scope data: signup and token
    exchange, the user's own profile, review and comment creation and
    listing, and category and genre deletion by slug.

    Each endpoint is first given as a function from the database, the next
    primary key and the request to a Step: the database after the request,
    the next key, the mails sent and the response. Endpoints that write are
    then methods on a Store, each proved to do what its function says; the
    properties of the endpoints are lemmas about the functions. */
module Views {
  import opened Wrappers
  import opened Models
  import opened Database
  import opened Permissions
  import opened Serializers

  datatype Step<T> = Step(db: Db, next: nat, sent: seq<Mail>, response: Result<T>)

  /** The request failed before touching anything. */
  function Refuse<T>(db: Db, next: nat, f: Failure): Step<T>
  {
    Step(db, next, [], Fail(f))
  }

  /** The state every request starts from and ends in. */
  ghost predicate Ready(db: Db, next: nat)
  {
    Models.Valid(db) && KeysBelow(db, next)
  }

  /** The requesting user, if authenticated, is a stored row. */
  predicate Known(db: Db, user: Option<UserId>)
  {
    user.Some? ==> user.value in db.users
  }

  function ActorOf(db: Db, user: Option<UserId>): Actor
    requires Known(db, user)
  {
    if user.None? then Anonymous
    else Member(user.value, db.users[user.value].role, db.users[user.value].isSuperuser)
  }

  /** A refused permission check answers 401 to an anonymous request and
      403 to an authenticated one. */
  function Denied(a: Actor): Failure
  {
    if a.Anonymous? then NotAuthenticated else PermissionDenied
  }

  // ---------------------------------------------------------------------
  // Lookups by a unique column

  /** The user with both the given username and email. */
  function PairOwner(db: Db, req: SignupRequest): (r: Option<UserId>)
    requires UsersUnique(db.users)
    ensures r.Some? <==>
      && req.username.Some? && req.email.Some?
      && exists k :: k in db.users && db.users[k].username == req.username.value && db.users[k].email == req.email.value
    ensures r.Some? ==>
      && r.value in db.users && req.username.Some? && req.email.Some?
      && db.users[r.value].username == req.username.value && db.users[r.value].email == req.email.value
  {
    if req.username.Some? && req.email.Some? &&
       exists k :: k in db.users && db.users[k].username == req.username.value && db.users[k].email == req.email.value
    then
      var k :| k in db.users && db.users[k].username == req.username.value && db.users[k].email == req.email.value;
      Some(k)
    else None
  }

  function UserNamed(db: Db, username: string): (r: Option<UserId>)
    requires UsersUnique(db.users)
    ensures r.Some? <==> UsernameTaken(db.users, username)
    ensures r.Some? ==> r.value in db.users && db.users[r.value].username == username
  {
    if UsernameTaken(db.users, username) then
      var k :| k in db.users && db.users[k].username == username; Some(k)
    else None
  }

  function CategoryBySlug(db: Db, slug: string): (r: Option<CategoryId>)
    requires CategoriesUnique(db.categories)
    ensures r.Some? <==> exists k :: k in db.categories && db.categories[k].slug == slug
    ensures r.Some? ==> r.value in db.categories && db.categories[r.value].slug == slug
  {
    if exists k :: k in db.categories && db.categories[k].slug == slug then
      var k :| k in db.categories && db.categories[k].slug == slug; Some(k)
    else None
  }

  function GenreBySlug(db: Db, slug: string): (r: Option<GenreId>)
    requires GenresUnique(db.genres)
    ensures r.Some? <==> exists k :: k in db.genres && db.genres[k].slug == slug
    ensures r.Some? ==> r.value in db.genres && db.genres[r.value].slug == slug
  {
    if exists k :: k in db.genres && db.genres[k].slug == slug then
      var k :| k in db.genres && db.genres[k].slug == slug; Some(k)
    else None
  }

  // ---------------------------------------------------------------------
  // Signup

  /** The signup action, as written. A (username, email) pair that no user
      has is validated, then a user row and a code row are inserted and the
      code is mailed. A pair that a user has skips validation and rewrites
      every code row of the table, not only that user's, before mailing the
      code. The code is the freshly generated identifier, passed in. */
  function Signup(db: Db, next: nat, req: SignupRequest, code: string): Step<SignupRequest>
    requires UsersUnique(db.users)
  {
    match PairOwner(db, req)
    case None => Register(db, next, req, code)
    case Some(owner) => Resend(db, next, req, owner, code)
  }

  /** The branch for a pair no user has: validate, insert the user, insert
      its code, mail the code. */
  function Register(db: Db, next: nat, req: SignupRequest, code: string): Step<SignupRequest>
  {
    match ValidateNewUser(db, req)
    case Fail(f) => Refuse(db, next, f)
    case Ok(c) =>
      match SaveUser(db, next, NewUser(c.username, c.email))
      case None => Refuse(db, next, IntegrityError)
      case Some(d1) =>
        match SaveCode(d1, next + 1, Code(next, Some(code)))
        case None => Refuse(d1, next + 1, IntegrityError)
        case Some(d2) => Step(d2, next + 2, [Mail([c.email], code)], Ok(req))
  }

  /** The branch for a pair that user owner has: the unfiltered update of
      the code table, then the mail to the address in the request. */
  function Resend(db: Db, next: nat, req: SignupRequest, owner: UserId, code: string): Step<SignupRequest>
    requires req.email.Some?
  {
    match Models.UpdateAllCodes(db, owner, code)
    case None => Refuse(db, next, IntegrityError)
    case Some(d) => Step(d, next, [Mail([req.email.value], code)], Ok(req))
  }

  /** A new pair that passes validation yields exactly one new user, with
      the default role, and exactly one new code, owned by that user and
      holding the generated code; the code is mailed to the given address
      and the request body is returned. */
  lemma SignupNewPair(db: Db, next: nat, req: SignupRequest, code: string)
    requires Ready(db, next)
    requires PairOwner(db, req).None? && ValidateNewUser(db, req).Ok?
    ensures var st := Signup(db, next, req, code);
      && st.response == Ok(req)
      && st.db.users == db.users[next := NewUser(req.username.value, req.email.value)]
      && next !in db.users
      && st.db.users[next].role == DefaultRole
      && st.db.codes == db.codes[next + 1 := Code(next, Some(code))]
      && next + 1 !in db.codes
      && st.db.(users := db.users, codes := db.codes) == db
      && st.next == next + 2
      && st.sent == [Mail([req.email.value], code)]
  {
    var row := NewUser(req.username.value, req.email.value);
    ValidatedUserCommits(db, req, next);
    var d1 := db.(users := db.users[next := row]);
    assert SaveUser(db, next, row) == Some(d1);
    NoCodeForFreshUser(db, next);
    SaveCodeCommits(d1, next + 1, Code(next, Some(code)));
    var d2 := d1.(codes := d1.codes[next + 1 := Code(next, Some(code))]);
    assert SaveCode(d1, next + 1, Code(next, Some(code))) == Some(d2);
  }

  /** A key not yet handed out owns no code. */
  lemma NoCodeForFreshUser(db: Db, next: nat)
    requires KeysResolve(db) && KeysBelow(db, next)
    ensures next !in db.users && next + 1 !in db.codes
    ensures forall k :: k in db.codes ==> db.codes[k].user != next
  {
  }

  /** A new pair that fails validation, such as one whose username is "me"
      in any case, creates nothing and sends nothing. */
  lemma SignupRefused(db: Db, next: nat, req: SignupRequest, code: string)
    requires UsersUnique(db.users)
    requires PairOwner(db, req).None? && ValidateNewUser(db, req).Fail?
    ensures Signup(db, next, req, code) == Refuse(db, next, BadRequest)
  {
  }

  lemma SignupReservedName(db: Db, next: nat, req: SignupRequest, code: string)
    requires UsersUnique(db.users)
    requires req.username.Some? && req.username.value in {"me", "Me", "mE", "ME"}
    ensures PairOwner(db, req).None? ==> Signup(db, next, req, code) == Refuse(db, next, BadRequest)
  {
    ValidateNewUserReserved(db, req);
  }

  /** An existing pair creates no user and rewrites every code row with
      that user and the new code. This commits exactly when the table has
      at most one code row; otherwise the one-to-one constraint fails, the
      request ends in an integrity error and no mail is sent. */
  lemma SignupExistingPair(db: Db, next: nat, req: SignupRequest, code: string)
    requires Ready(db, next)
    requires PairOwner(db, req).Some?
    ensures var st := Signup(db, next, req, code);
      && st.db.users == db.users
      && st.next == next
      && (st.response.Ok? <==> |db.codes| <= 1)
      && (st.response.Ok? ==>
            && st.response.value == req
            && st.db == db.(codes := map k | k in db.codes :: Code(PairOwner(db, req).value, Some(code)))
            && st.sent == [Mail([req.email.value], code)])
      && (st.response.Fail? ==> st.response == Fail(IntegrityError) && st.db == db && st.sent == [])
  {
    UpdateAllCodesCommits(db, PairOwner(db, req).value, code);
  }

  /** Every signup that succeeds sends exactly one mail, carrying the
      generated code to the address in the request; one that fails sends
      none. */
  lemma SignupMails(db: Db, next: nat, req: SignupRequest, code: string)
    requires UsersUnique(db.users)
    ensures var st := Signup(db, next, req, code);
      && |st.sent| == (if st.response.Ok? then 1 else 0)
      && (st.response.Ok? ==> req.email.Some? && st.sent[0] == Mail([req.email.value], code) && st.response.value == req)
  {
  }

  method SignupAction(s: Store, req: SignupRequest, code: string) returns (r: Result<SignupRequest>)
    requires s.Valid()
    modifies s
    ensures s.Valid()
    ensures var st := Signup(old(s.Snapshot()), old(s.nextId), req, code);
      s.Snapshot() == st.db && s.nextId == st.next && s.outbox == old(s.outbox) + st.sent && r == st.response
  {
    var owner := PairOwner(s.Snapshot(), req);
    if owner.None? {
      r := RegisterAction(s, req, code);
    } else {
      r := ResendAction(s, req, owner.value, code);
    }
  }

  method RegisterAction(s: Store, req: SignupRequest, code: string) returns (r: Result<SignupRequest>)
    requires s.Valid()
    modifies s
    ensures s.Valid()
    ensures var st := Register(old(s.Snapshot()), old(s.nextId), req, code);
      s.Snapshot() == st.db && s.nextId == st.next && s.outbox == old(s.outbox) + st.sent && r == st.response
  {
    var v := ValidateNewUser(s.Snapshot(), req);
    if v.Fail? {
      return Fail(v.failure);
    }
    var uid := s.CreateUser(NewUser(v.value.username, v.value.email));
    if uid.None? {
      return Fail(IntegrityError);
    }
    var cid := s.CreateCode(Code(uid.value, Some(code)));
    if cid.None? {
      return Fail(IntegrityError);
    }
    s.SendMail(Mail([v.value.email], code));
    return Ok(req);
  }

  method ResendAction(s: Store, req: SignupRequest, owner: UserId, code: string) returns (r: Result<SignupRequest>)
    requires s.Valid() && req.email.Some?
    modifies s
    ensures s.Valid()
    ensures var st := Resend(old(s.Snapshot()), old(s.nextId), req, owner, code);
      s.Snapshot() == st.db && s.nextId == st.next && s.outbox == old(s.outbox) + st.sent && r == st.response
  {
    var ok := s.UpdateAllCodes(owner, code);
    if !ok {
      return Fail(IntegrityError);
    }
    s.SendMail(Mail([req.email.value], code));
    return Ok(req);
  }

  // ---------------------------------------------------------------------
  // Token exchange

  /** An issued access token for a user; its encoding is not modelled. */
  datatype AccessToken = AccessToken(user: UserId)

  /** The condition of the branch that refuses the code: it tests the
      exception class Code.DoesNotExist, which as a class is always true. */
  const CodeDoesNotExistIsTruthy: bool := true

  /** The token action, as written. It reads and writes nothing. */
  function Token(db: Db, req: TokenRequest): Result<AccessToken>
    requires UsersUnique(db.users)
  {
    match ValidateTokenRequest(req)
    case Fail(f) => Fail(f)
    case Ok(fields) =>
      match UserNamed(db, fields.username)
      case None => Fail(NotFound)
      case Some(user) =>
        if CodeDoesNotExistIsTruthy then Fail(BadRequest) else Ok(AccessToken(user))
  }

  /** No token is ever issued: the request is refused with 404 when both
      fields are given and the username is unknown, and with 400 otherwise.
      The submitted code plays no part in the answer. */
  lemma TokenNeverIssued(db: Db, req: TokenRequest, otherCode: string)
    requires UsersUnique(db.users)
    requires otherCode != ""
    ensures Token(db, req).Fail?
    ensures Token(db, req) == Fail(NotFound) <==>
      Present(req.username) && Present(req.confirmationCode) && !UsernameTaken(db.users, req.username.value)
    ensures Token(db, req) != Fail(NotFound) ==> Token(db, req) == Fail(BadRequest)
    ensures Present(req.confirmationCode) ==>
      Token(db, req) == Token(db, req.(confirmationCode := Some(otherCode)))
  {
  }

  // ---------------------------------------------------------------------
  // The user's own profile

  /** GET or PATCH on the user's own row. A PATCH that fails validation is
      not reported: the stored row is returned with status 200. */
  function SelfProfile(db: Db, next: nat, user: Option<UserId>, isPatch: bool, p: UserPatch): Step<User>
    requires Known(db, user) && UsersUnique(db.users)
  {
    var a := ActorOf(db, user);
    if !CheckPermissions(SelfProfilePermissions, a, if isPatch then PATCH else GET) then Refuse(db, next, Denied(a))
    else if !isPatch || !SelfPatchValid(db, user.value, p) then Step(db, next, [], Ok(db.users[user.value]))
    else
      match SaveUser(db, user.value, ApplySelfPatch(db.users[user.value], p))
      case None => Refuse(db, next, IntegrityError)
      case Some(d) => Step(d, next, [], Ok(d.users[user.value]))
  }

  /** How a profile request ends: an anonymous one is refused, a valid
      PATCH is saved and the new row returned, and anything else returns the
      stored row and changes nothing. */
  lemma SelfProfileOutcomes(db: Db, next: nat, user: Option<UserId>, isPatch: bool, p: UserPatch)
    requires Known(db, user) && Constraints(db)
    ensures var st := SelfProfile(db, next, user, isPatch, p);
      && st.next == next && st.sent == []
      && (user.None? ==> st == Refuse(db, next, NotAuthenticated))
      && (user.Some? && isPatch && SelfPatchValid(db, user.value, p) ==>
            st.response == Ok(ApplySelfPatch(db.users[user.value], p)) &&
            st.db == db.(users := db.users[user.value := ApplySelfPatch(db.users[user.value], p)]))
      && (user.Some? && !(isPatch && SelfPatchValid(db, user.value, p)) ==>
            st == Step(db, next, [], Ok(db.users[user.value])))
  {
    CheckOne(IsAuthenticated, ActorOf(db, user), if isPatch then PATCH else GET);
    if user.Some? && isPatch && SelfPatchValid(db, user.value, p) {
      SelfPatchCommits(db, user.value, p);
    }
  }

  /** No profile request changes the role or the superuser flag of any user,
      adds or removes a user, or touches another table. */
  lemma SelfProfileKeepsRole(db: Db, next: nat, user: Option<UserId>, isPatch: bool, p: UserPatch)
    requires Known(db, user) && Constraints(db)
    ensures var st := SelfProfile(db, next, user, isPatch, p);
      && st.db.users.Keys == db.users.Keys
      && (forall k :: k in db.users ==>
            st.db.users[k].role == db.users[k].role && st.db.users[k].isSuperuser == db.users[k].isSuperuser)
      && st.db.(users := db.users) == db
  {
    SelfProfileOutcomes(db, next, user, isPatch, p);
    if user.Some? && isPatch && SelfPatchValid(db, user.value, p) {
      ApplySelfPatchKeepsRole(db.users[user.value], p);
    }
  }

  method SelfProfileAction(s: Store, user: Option<UserId>, isPatch: bool, p: UserPatch) returns (r: Result<User>)
    requires s.Valid() && Known(s.Snapshot(), user)
    modifies s
    ensures s.Valid()
    ensures var st := SelfProfile(old(s.Snapshot()), old(s.nextId), user, isPatch, p);
      s.Snapshot() == st.db && s.nextId == st.next && s.outbox == old(s.outbox) && r == st.response
  {
    var a := ActorOf(s.Snapshot(), user);
    if !CheckPermissions(SelfProfilePermissions, a, if isPatch then PATCH else GET) {
      return Fail(Denied(a));
    }
    if !isPatch || !SelfPatchValid(s.Snapshot(), user.value, p) {
      return Ok(s.users[user.value]);
    }
    var ok := s.UpdateUser(user.value, ApplySelfPatch(s.users[user.value], p));
    if !ok {
      return Fail(IntegrityError);
    }
    return Ok(s.users[user.value]);
  }

  // ---------------------------------------------------------------------
  // Reviews

  /** POST of a review under a title. The permission check comes first; then
      the fields, all of them checked before validate; then validate, which
      looks up the title and refuses a second review by the same user; then
      the save, which binds the author to the requesting user and the title
      to the path. */
  function CreateReview(db: Db, next: nat, user: Option<UserId>, t: TitleId, data: ReviewData): Step<ReviewId>
    requires Known(db, user)
  {
    var a := ActorOf(db, user);
    if !CheckPermissions(FeedbackPermissions, a, POST) then Refuse(db, next, Denied(a))
    else
      match ReviewFieldsOf(data)
      case Fail(f) => Refuse(db, next, f)
      case Ok(fields) =>
        match ValidateReview(db, t, user.value, true, fields)
        case Fail(f) => Refuse(db, next, f)
        case Ok(v) =>
          match SaveReview(db, next, Review(t, v.text, user.value, v.score))
          case None => Refuse(db, next, IntegrityError)
          case Some(d) => Step(d, next + 1, [], Ok(next))
  }

  /** The outcomes of a review POST, in the order they are decided. */
  lemma CreateReviewOutcomes(db: Db, next: nat, user: Option<UserId>, t: TitleId, data: ReviewData)
    requires Ready(db, next) && Known(db, user)
    ensures var st := CreateReview(db, next, user, t, data);
      && st.sent == []
      && (user.None? ==> st == Refuse(db, next, NotAuthenticated))
      && (user.Some? && ReviewFieldsOf(data).Fail? ==> st == Refuse(db, next, BadRequest))
      && (user.Some? && ReviewFieldsOf(data).Ok? && t !in db.titles ==> st == Refuse(db, next, NotFound))
      && (user.Some? && ReviewFieldsOf(data).Ok? && t in db.titles && HasReviewed(db, t, user.value) ==>
            st == Refuse(db, next, BadRequest))
      && (user.Some? && ReviewFieldsOf(data).Ok? && t in db.titles && !HasReviewed(db, t, user.value) ==>
            st.response == Ok(next))
  {
    CheckOne(IsAdminModeratorOwnerOrReadOnly, ActorOf(db, user), POST);
    if user.Some? && ReviewFieldsOf(data).Ok? && t in db.titles && !HasReviewed(db, t, user.value) {
      ReviewFieldsOfAccepts(data);
      ValidatedReviewCommits(db, t, user.value, ReviewFieldsOf(data).value, next);
    }
  }

  /** A created review is the only change: it is stored under the next key,
      its author is the requesting user, its title is the path title, and
      its text and score are the request's. */
  lemma CreateReviewBinds(db: Db, next: nat, user: Option<UserId>, t: TitleId, data: ReviewData)
    requires Known(db, user)
    ensures var st := CreateReview(db, next, user, t, data);
      st.response.Ok? ==>
        && user.Some? && t in db.titles
        && st.response.value == next && st.next == next + 1
        && st.db == db.(reviews := db.reviews[next := Review(t, data.text.value, user.value, data.score.value)])
    ensures CreateReview(db, next, user, t, data).response.Fail? ==>
      CreateReview(db, next, user, t, data).db == db
  {
    CheckOne(IsAdminModeratorOwnerOrReadOnly, ActorOf(db, user), POST);
    ReviewFieldsOfAccepts(data);
  }

  method CreateReviewAction(s: Store, user: Option<UserId>, t: TitleId, data: ReviewData) returns (r: Result<ReviewId>)
    requires s.Valid() && Known(s.Snapshot(), user)
    modifies s
    ensures s.Valid()
    ensures var st := CreateReview(old(s.Snapshot()), old(s.nextId), user, t, data);
      s.Snapshot() == st.db && s.nextId == st.next && s.outbox == old(s.outbox) && r == st.response
  {
    var a := ActorOf(s.Snapshot(), user);
    if !CheckPermissions(FeedbackPermissions, a, POST) {
      return Fail(Denied(a));
    }
    var fields := ReviewFieldsOf(data);
    if fields.Fail? {
      return Fail(fields.failure);
    }
    var v := ValidateReview(s.Snapshot(), t, user.value, true, fields.value);
    if v.Fail? {
      return Fail(v.failure);
    }
    var id := s.CreateReview(Review(t, v.value.text, user.value, v.value.score));
    if id.None? {
      return Fail(IntegrityError);
    }
    return Ok(id.value);
  }

  /** The reviews listed under a title: those of the path title, which must
      exist. */
  function ListReviews(db: Db, t: TitleId): Result<set<ReviewId>>
  {
    if t !in db.titles then Fail(NotFound) else Ok(ReviewsOf(db, t))
  }

  /** The list is empty exactly when the title has no rating, and every
      listed review belongs to the title. */
  lemma ListReviewsRating(db: Db, t: TitleId)
    requires ScoresInRange(db.reviews)
    ensures ListReviews(db, t).Fail? <==> t !in db.titles
    ensures ListReviews(db, t).Ok? ==>
      && (ListReviews(db, t).value == {} <==> TitleRating(db, t).None?)
      && (forall r :: r in ListReviews(db, t).value <==> r in db.reviews && db.reviews[r].title == t)
  {
    TitleRatingMeaning(db, t);
  }

  // ---------------------------------------------------------------------
  // Comments

  /** The fields of a comment as the request carries them. */
  datatype CommentData = CommentData(text: Option<string>)

  /** POST of a comment under a title and a review. The review is looked up
      by both its key and the path title. */
  function CreateComment(db: Db, next: nat, user: Option<UserId>, t: TitleId, r: ReviewId, data: CommentData): Step<CommentId>
    requires Known(db, user)
  {
    var a := ActorOf(db, user);
    if !CheckPermissions(FeedbackPermissions, a, POST) then Refuse(db, next, Denied(a))
    else if !Present(data.text) then Refuse(db, next, BadRequest)
    else if !(r in db.reviews && db.reviews[r].title == t) then Refuse(db, next, NotFound)
    else
      match SaveComment(db, next, Comment(r, data.text.value, user.value))
      case None => Refuse(db, next, IntegrityError)
      case Some(d) => Step(d, next + 1, [], Ok(next))
  }

  /** An authenticated POST with a text fails with 404 exactly when the
      review does not exist under the path title; otherwise the comment is
      stored under the next key, on that review, by the requesting user. */
  lemma CreateCommentScoped(db: Db, next: nat, user: Option<UserId>, t: TitleId, r: ReviewId, data: CommentData)
    requires Ready(db, next) && Known(db, user)
    ensures var st := CreateComment(db, next, user, t, r, data);
      && st.sent == []
      && (user.None? ==> st == Refuse(db, next, NotAuthenticated))
      && (user.Some? && !Present(data.text) ==> st == Refuse(db, next, BadRequest))
      && (user.Some? && Present(data.text) ==>
            && (st.response == Fail(NotFound) <==> !(r in db.reviews && db.reviews[r].title == t))
            && (st.response.Fail? ==> st.db == db)
            && (st.response.Ok? ==>
                  st.response.value == next && st.next == next + 1 &&
                  st.db == db.(comments := db.comments[next := Comment(r, data.text.value, user.value)])))
  {
    CheckOne(IsAdminModeratorOwnerOrReadOnly, ActorOf(db, user), POST);
    if user.Some? && Present(data.text) && r in db.reviews && db.reviews[r].title == t {
      SaveCommentCommits(db, next, Comment(r, data.text.value, user.value));
    }
  }

  method CreateCommentAction(s: Store, user: Option<UserId>, t: TitleId, r: ReviewId, data: CommentData)
    returns (res: Result<CommentId>)
    requires s.Valid() && Known(s.Snapshot(), user)
    modifies s
    ensures s.Valid()
    ensures var st := CreateComment(old(s.Snapshot()), old(s.nextId), user, t, r, data);
      s.Snapshot() == st.db && s.nextId == st.next && s.outbox == old(s.outbox) && res == st.response
  {
    var a := ActorOf(s.Snapshot(), user);
    if !CheckPermissions(FeedbackPermissions, a, POST) {
      return Fail(Denied(a));
    }
    if !Present(data.text) {
      return Fail(BadRequest);
    }
    if !(r in s.reviews && s.reviews[r].title == t) {
      return Fail(NotFound);
    }
    var id := s.CreateComment(Comment(r, data.text.value, user.value));
    if id.None? {
      return Fail(IntegrityError);
    }
    return Ok(id.value);
  }

  /** The comments listed under a title and a review: the review is looked
      up by its key alone, so the title in the path is not consulted. */
  function ListComments(db: Db, t: TitleId, r: ReviewId): Result<set<CommentId>>
  {
    if r !in db.reviews then Fail(NotFound)
    else Ok(set c | c in db.comments && db.comments[c].review == r)
  }

  /** The listing answers the same under every title, and lists every
      comment of the review. */
  lemma ListCommentsIgnoresTitle(db: Db, t: TitleId, t': TitleId, r: ReviewId)
    ensures ListComments(db, t, r) == ListComments(db, t', r)
    ensures ListComments(db, t, r).Fail? <==> r !in db.reviews
    ensures ListComments(db, t, r).Ok? ==>
      forall c :: c in ListComments(db, t, r).value <==> c in db.comments && db.comments[c].review == r
  {
  }

  /** Listing and creation disagree on the scope: for a review under one
      title, a path naming any other title lists the review's comments but
      refuses to add one. */
  lemma CommentScopeMismatch(db: Db, next: nat, u: UserId, t: TitleId, r: ReviewId, text: string)
    requires u in db.users && r in db.reviews && db.reviews[r].title != t && text != ""
    ensures ListComments(db, t, r) == ListComments(db, db.reviews[r].title, r)
    ensures ListComments(db, t, r).Ok?
    ensures CreateComment(db, next, Some(u), t, r, CommentData(Some(text))) == Refuse(db, next, NotFound)
  {
    CheckOne(IsAdminModeratorOwnerOrReadOnly, ActorOf(db, Some(u)), POST);
  }

  /** The mismatch on a concrete, valid database. */
  lemma CommentScopeExample()
    ensures var db := ScopeExample();
      && Ready(db, 5)
      && ListComments(db, 3, 4).Ok?
      && CreateComment(db, 5, Some(1), 3, 4, CommentData(Some("reply"))).response == Fail(NotFound)
  {
    ScopeExampleReady();
    CommentScopeMismatch(ScopeExample(), 5, 1, 3, 4, "reply");
  }

  lemma ScopeExampleReady()
    ensures Ready(ScopeExample(), 5)
  {
    var db := ScopeExample();
    assert db.users.Keys == {1} && db.titles.Keys == {2, 3} && db.reviews.Keys == {4};
    assert UsersUnique(db.users) && ReviewsUnique(db.reviews);
    assert KeysResolve(db);
  }

  /** One user (key 1), two titles (2 and 3) and one review of title 2 by
      that user (key 4). */
  function ScopeExample(): Db
  {
    EmptyDb.(users := map[1 := NewUser("reader", "reader@example.com")],
             titles := map[2 := Title("A title", None, None, ""), 3 := Title("Another", None, None, "")],
             reviews := map[4 := Review(2, "text", 1, 5)])
  }

  // ---------------------------------------------------------------------
  // Category and genre deletion

  /** DELETE of a category by slug: the permission check, the lookup of the
      slug, the object-level check, then the deletion with its SET_NULL
      rule. */
  function DestroyCategory(db: Db, next: nat, user: Option<UserId>, slug: string): Step<()>
    requires Known(db, user) && CategoriesUnique(db.categories)
  {
    var a := ActorOf(db, user);
    if !CheckPermissions(CatalogPermissions, a, DELETE) then Refuse(db, next, Denied(a))
    else match CategoryBySlug(db, slug)
      case None => Refuse(db, next, NotFound)
      case Some(c) =>
        if !AdminOrReadOnlyObject(a, DELETE) then Refuse(db, next, Denied(a))
        else Step(Models.DeleteCategory(db, c), next, [], Ok(()))
  }

  /** Only an admin or a superuser may delete; a missing slug answers 404;
      otherwise exactly the category with the slug is removed and its titles
      lose their category. */
  lemma DestroyCategoryOutcomes(db: Db, next: nat, user: Option<UserId>, slug: string)
    requires Known(db, user) && Models.Valid(db)
    ensures var st := DestroyCategory(db, next, user, slug);
      && st.next == next && st.sent == []
      && (st.response.Fail? ==> st.db == db)
      && (var a := ActorOf(db, user);
          !Admin(a, DELETE) ==> st.response == Fail(Denied(a)))
      && (Admin(ActorOf(db, user), DELETE) ==>
            (st.response.Ok? <==> exists c :: c in db.categories && db.categories[c].slug == slug))
      && (st.response.Ok? ==>
            exists c :: c in db.categories && db.categories[c].slug == slug &&
              st.db == Models.DeleteCategory(db, c) &&
              st.db.categories == db.categories - {c} &&
              st.db.titles.Keys == db.titles.Keys)
      && Models.Valid(st.db)
  {
    var st := DestroyCategory(db, next, user, slug);
    CheckOne(IsAdminOrReadOnly, ActorOf(db, user), DELETE);
    if st.response.Ok? {
      var c := CategoryBySlug(db, slug).value;
      DeleteCategoryValid(db, c);
      DeleteCategoryNullsTitles(db, c);
    }
  }

  method DestroyCategoryAction(s: Store, user: Option<UserId>, slug: string) returns (r: Result<()>)
    requires s.Valid() && Known(s.Snapshot(), user)
    modifies s
    ensures s.Valid()
    ensures var st := DestroyCategory(old(s.Snapshot()), old(s.nextId), user, slug);
      s.Snapshot() == st.db && s.nextId == st.next && s.outbox == old(s.outbox) && r == st.response
  {
    var a := ActorOf(s.Snapshot(), user);
    if !CheckPermissions(CatalogPermissions, a, DELETE) {
      return Fail(Denied(a));
    }
    var c := CategoryBySlug(s.Snapshot(), slug);
    if c.None? {
      return Fail(NotFound);
    }
    if !AdminOrReadOnlyObject(a, DELETE) {
      return Fail(Denied(a));
    }
    s.DeleteCategory(c.value);
    return Ok(());
  }

  /** DELETE of a genre by slug, with its cascade to the genre links. */
  function DestroyGenre(db: Db, next: nat, user: Option<UserId>, slug: string): Step<()>
    requires Known(db, user) && GenresUnique(db.genres)
  {
    var a := ActorOf(db, user);
    if !CheckPermissions(CatalogPermissions, a, DELETE) then Refuse(db, next, Denied(a))
    else match GenreBySlug(db, slug)
      case None => Refuse(db, next, NotFound)
      case Some(g) =>
        if !AdminOrReadOnlyObject(a, DELETE) then Refuse(db, next, Denied(a))
        else Step(Models.DeleteGenre(db, g), next, [], Ok(()))
  }

  lemma DestroyGenreOutcomes(db: Db, next: nat, user: Option<UserId>, slug: string)
    requires Known(db, user) && Models.Valid(db)
    ensures var st := DestroyGenre(db, next, user, slug);
      && st.next == next && st.sent == []
      && (st.response.Fail? ==> st.db == db)
      && (var a := ActorOf(db, user);
          !Admin(a, DELETE) ==> st.response == Fail(Denied(a)))
      && (Admin(ActorOf(db, user), DELETE) ==>
            (st.response.Ok? <==> exists g :: g in db.genres && db.genres[g].slug == slug))
      && (st.response.Ok? ==>
            exists g :: g in db.genres && db.genres[g].slug == slug &&
              st.db.genres == db.genres - {g} &&
              st.db.(genres := db.genres, genreTitles := db.genreTitles) == db &&
              (forall k :: k in st.db.genreTitles <==> k in db.genreTitles && db.genreTitles[k].genre != g) &&
              (forall k :: k in st.db.genreTitles ==> st.db.genreTitles[k] == db.genreTitles[k]))
      && Models.Valid(st.db)
  {
    var st := DestroyGenre(db, next, user, slug);
    CheckOne(IsAdminOrReadOnly, ActorOf(db, user), DELETE);
    if st.response.Ok? {
      var g := GenreBySlug(db, slug).value;
      DeleteGenreValid(db, g);
    }
  }

  method DestroyGenreAction(s: Store, user: Option<UserId>, slug: string) returns (r: Result<()>)
    requires s.Valid() && Known(s.Snapshot(), user)
    modifies s
    ensures s.Valid()
    ensures var st := DestroyGenre(old(s.Snapshot()), old(s.nextId), user, slug);
      s.Snapshot() == st.db && s.nextId == st.next && s.outbox == old(s.outbox) && r == st.response
  {
    var a := ActorOf(s.Snapshot(), user);
    if !CheckPermissions(CatalogPermissions, a, DELETE) {
      return Fail(Denied(a));
    }
    var g := GenreBySlug(s.Snapshot(), slug);
    if g.None? {
      return Fail(NotFound);
    }
    if !AdminOrReadOnlyObject(a, DELETE) {
      return Fail(Denied(a));
    }
    s.DeleteGenre(g.value);
    return Ok(());
  }
}
