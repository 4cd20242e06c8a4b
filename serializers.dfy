/** The validation the serializers apply to request data before anything is
    saved: the reserved username, the year and score ranges, the
    one-review-per-title rule, the required fields of the token request, the
    fields a new user must carry, and the partial self-update whose role is
    read-only. Each validator returns its input unchanged or fails. */
module Serializers {
  import opened Wrappers
  import opened Models

  // ---------------------------------------------------------------------
  // Lower-casing

  /** str.lower on one character, over the ASCII letters. */
  function LowerChar(c: char): char
  {
    if 'A' <= c <= 'Z' then (c as int + 32) as char else c
  }

  /** str.lower, character by character. */
  function Lower(s: string): (r: string)
    ensures |r| == |s|
    ensures forall i :: 0 <= i < |s| ==> r[i] == LowerChar(s[i])
  {
    if s == [] then [] else [LowerChar(s[0])] + Lower(s[1..])
  }

  lemma LowerCharIs(c: char, lower: char)
    requires 'a' <= lower <= 'z'
    ensures LowerChar(c) == lower <==> c == lower || c as int == lower as int - 32
  {
  }

  // ---------------------------------------------------------------------
  // UserSerializer.validate_username

  const ReservedUsername: string := "me"

  function ValidateUsername(value: string): Result<string>
  {
    if Lower(value) == ReservedUsername then Fail(BadRequest) else Ok(value)
  }

  /** The check refuses exactly the four spellings of "me" and passes every
      other name through unchanged. */
  lemma ValidateUsernameRefuses(value: string)
    ensures ValidateUsername(value).Fail? <==> value in {"me", "Me", "mE", "ME"}
    ensures ValidateUsername(value).Ok? ==> ValidateUsername(value).value == value
  {
    if |value| == 2 {
      LowerCharIs(value[0], 'm');
      LowerCharIs(value[1], 'e');
      if Lower(value) == ReservedUsername {
        assert value == [value[0], value[1]];
      }
    } else {
      assert |Lower(value)| != |ReservedUsername|;
    }
  }

  // ---------------------------------------------------------------------
  // TitleWriteSerializer.validate_year and the year field it runs after

  /** validate_year, with the current year passed in. */
  function ValidateYear(value: int, currentYear: int): Result<int>
  {
    if value < 0 || value > currentYear then Fail(BadRequest) else Ok(value)
  }

  /** The bounds the model field gives the serializer field: a positive
      small integer, at least 1700. */
  const SmallIntMax: int := 32767
  const MinYear: int := 1700

  function YearField(value: int): Result<int>
  {
    if value < 0 || value > SmallIntMax || value < MinYear then Fail(BadRequest) else Ok(value)
  }

  /** The field's validators run first, then validate_year. */
  function TitleYear(value: int, currentYear: int): Result<int>
  {
    match YearField(value)
    case Fail(f) => Fail(f)
    case Ok(v) => ValidateYear(v, currentYear)
  }

  /** validate_year refuses exactly the years outside [0, currentYear] and
      returns the others unchanged. */
  lemma ValidateYearRange(value: int, currentYear: int)
    ensures ValidateYear(value, currentYear).Ok? <==> 0 <= value <= currentYear
    ensures ValidateYear(value, currentYear).Ok? ==> ValidateYear(value, currentYear).value == value
  {
  }

  /** Together with the field's bounds a year is accepted exactly when it
      lies in [1700, currentYear] and fits a small integer; the negative
      test of validate_year never decides anything. */
  lemma TitleYearRange(value: int, currentYear: int)
    ensures TitleYear(value, currentYear).Ok? <==> MinYear <= value <= currentYear && value <= SmallIntMax
    ensures TitleYear(value, currentYear).Ok? ==> TitleYear(value, currentYear).value == value
    ensures YearField(value).Ok? ==> (ValidateYear(value, currentYear).Ok? <==> value <= currentYear)
  {
  }

  // ---------------------------------------------------------------------
  // ReviewSerializer

  /** validate_score. */
  function ValidateScore(value: int): Result<int>
  {
    if !(1 <= value <= 10) then Fail(BadRequest) else Ok(value)
  }

  /** The scores validate_score accepts are exactly those the stored reviews
      may carry: saving a review with such a score keeps every stored score
      in range. */
  lemma ValidateScoreKeepsRange(reviews: map<ReviewId, Review>, id: ReviewId, row: Review)
    requires ScoresInRange(reviews)
    ensures ValidateScore(row.score).Ok? <==> 1 <= row.score <= 10
    ensures ValidateScore(row.score).Ok? ==> ScoresInRange(reviews[id := row])
    ensures ValidateScore(row.score).Ok? ==> ValidateScore(row.score).value == row.score
  {
  }

  /** The writable fields of a review as the request carries them. */
  datatype ReviewData = ReviewData(text: Option<string>, score: Option<int>)

  /** The fields after field-level validation. */
  datatype ReviewFields = ReviewFields(text: string, score: int)

  /** A required character field that may not be blank. */
  predicate Present(field: Option<string>)
  {
    field.Some? && field.value != ""
  }

  /** Field-level validation of a review: text required and not blank, score
      required and passing the model's range validators and validate_score. */
  function ReviewFieldsOf(data: ReviewData): Result<ReviewFields>
  {
    if !Present(data.text) || data.score.None? then Fail(BadRequest)
    else match ValidateScore(data.score.value)
      case Fail(f) => Fail(f)
      case Ok(score) => Ok(ReviewFields(data.text.value, score))
  }

  lemma ReviewFieldsOfAccepts(data: ReviewData)
    ensures ReviewFieldsOf(data).Ok? <==> Present(data.text) && data.score.Some? && 1 <= data.score.value <= 10
    ensures ReviewFieldsOf(data).Ok? ==>
      ReviewFieldsOf(data).value == ReviewFields(data.text.value, data.score.value)
  {
  }

  /** Whether the user already reviewed the title. */
  predicate HasReviewed(db: Db, t: TitleId, author: UserId)
  {
    exists r :: r in db.reviews && db.reviews[r].title == t && db.reviews[r].author == author
  }

  /** ReviewSerializer.validate: the path title must exist, and a POST by a
      user who already reviewed the title is refused. */
  function ValidateReview(db: Db, t: TitleId, author: UserId, isPost: bool, data: ReviewFields): Result<ReviewFields>
  {
    if t !in db.titles then Fail(NotFound)
    else if isPost && HasReviewed(db, t, author) then Fail(BadRequest)
    else Ok(data)
  }

  /** The failures of validate and when each happens. */
  lemma ValidateReviewOutcomes(db: Db, t: TitleId, author: UserId, isPost: bool, data: ReviewFields)
    ensures ValidateReview(db, t, author, isPost, data) == Fail(NotFound) <==> t !in db.titles
    ensures ValidateReview(db, t, author, isPost, data) == Fail(BadRequest) <==>
      t in db.titles && isPost && HasReviewed(db, t, author)
    ensures !isPost ==> ValidateReview(db, t, author, isPost, data) != Fail(BadRequest)
    ensures ValidateReview(db, t, author, isPost, data).Ok? ==> ValidateReview(db, t, author, isPost, data).value == data
  {
  }

  /** What the duplicate check buys: a review that passes it on POST, by an
      existing user, commits under any fresh key without breaking the
      unique_author_review constraint. */
  lemma ValidatedReviewCommits(db: Db, t: TitleId, author: UserId, data: ReviewFields, id: ReviewId)
    requires Constraints(db) && author in db.users && id !in db.reviews
    requires ValidateReview(db, t, author, true, data).Ok?
    ensures SaveReview(db, id, Review(t, data.text, author, data.score)).Some?
  {
    SaveReviewCommits(db, id, Review(t, data.text, author, data.score));
  }

  // ---------------------------------------------------------------------
  // TokenGeneratorSerialiser

  datatype TokenRequest = TokenRequest(username: Option<string>, confirmationCode: Option<string>)

  /** The two fields the token request declares as required. */
  datatype TokenFields = TokenFields(username: string, confirmationCode: string)

  function ValidateTokenRequest(req: TokenRequest): Result<TokenFields>
  {
    if Present(req.username) && Present(req.confirmationCode) then
      Ok(TokenFields(req.username.value, req.confirmationCode.value))
    else Fail(BadRequest)
  }

  lemma ValidateTokenRequestRequires(req: TokenRequest)
    ensures ValidateTokenRequest(req).Fail? <==> !Present(req.username) || !Present(req.confirmationCode)
    ensures ValidateTokenRequest(req).Fail? ==> ValidateTokenRequest(req).failure == BadRequest
    ensures ValidateTokenRequest(req).Ok? ==>
      ValidateTokenRequest(req).value == TokenFields(req.username.value, req.confirmationCode.value)
  {
  }

  // ---------------------------------------------------------------------
  // UserSerializer on a signup request

  const UsernameMaxLength: int := 150
  const EmailMaxLength: int := 254
  const NameMaxLength: int := 150

  /** The writable fields of the user serializer as a signup request
      carries them. Only username and email are stored by the view; the
      others are validated when present. The role is the raw value sent. */
  datatype SignupRequest = SignupRequest(
    username: Option<string>,
    email: Option<string>,
    firstName: Option<string>,
    lastName: Option<string>,
    bio: Option<string>,
    role: Option<string>)

  /** The values the role field accepts: the keys of User.CHOICES. */
  const RoleChoices: set<string> := {"user", "moderator", "admin"}

  /** The optional fields: names within their length, a role among the
      choices. The bio is unbounded. */
  predicate OptionalFieldsValid(req: SignupRequest)
  {
    && (req.firstName.Some? ==> |req.firstName.value| <= NameMaxLength)
    && (req.lastName.Some? ==> |req.lastName.value| <= NameMaxLength)
    && (req.role.Some? ==> req.role.value in RoleChoices)
  }

  datatype Credentials = Credentials(username: string, email: string)

  predicate UsernameTaken(users: map<UserId, User>, username: string)
  {
    exists k :: k in users && users[k].username == username
  }

  predicate EmailTaken(users: map<UserId, User>, email: string)
  {
    exists k :: k in users && users[k].email == email
  }

  /** The validation of a new user: both fields present, within their
      lengths, the name not reserved, neither already used, and the optional
      fields valid. */
  function ValidateNewUser(db: Db, req: SignupRequest): Result<Credentials>
  {
    if !Present(req.username) || !Present(req.email) then Fail(BadRequest)
    else if !OptionalFieldsValid(req) then Fail(BadRequest)
    else if |req.username.value| > UsernameMaxLength || ValidateUsername(req.username.value).Fail? then Fail(BadRequest)
    else if UsernameTaken(db.users, req.username.value) then Fail(BadRequest)
    else if |req.email.value| > EmailMaxLength || EmailTaken(db.users, req.email.value) then Fail(BadRequest)
    else Ok(Credentials(req.username.value, req.email.value))
  }

  /** Exactly which signup requests pass, and what they yield. */
  lemma ValidateNewUserAccepts(db: Db, req: SignupRequest)
    ensures ValidateNewUser(db, req).Ok? <==>
      && Present(req.username) && Present(req.email)
      && OptionalFieldsValid(req)
      && |req.username.value| <= UsernameMaxLength
      && req.username.value !in {"me", "Me", "mE", "ME"}
      && !UsernameTaken(db.users, req.username.value)
      && |req.email.value| <= EmailMaxLength
      && !EmailTaken(db.users, req.email.value)
    ensures ValidateNewUser(db, req).Fail? ==> ValidateNewUser(db, req).failure == BadRequest
    ensures ValidateNewUser(db, req).Ok? ==>
      ValidateNewUser(db, req).value == Credentials(req.username.value, req.email.value)
  {
    if Present(req.username) {
      ValidateUsernameRefuses(req.username.value);
    }
  }

  /** A reserved name never passes, whatever the database holds. */
  lemma ValidateNewUserReserved(db: Db, req: SignupRequest)
    requires req.username.Some? && req.username.value in {"me", "Me", "mE", "ME"}
    ensures ValidateNewUser(db, req) == Fail(BadRequest)
  {
    ValidateUsernameRefuses(req.username.value);
  }

  /** Credentials that pass are the request's own, and a user row made from
      them commits under any fresh key. */
  lemma ValidatedUserCommits(db: Db, req: SignupRequest, id: UserId)
    requires Constraints(db) && id !in db.users
    requires ValidateNewUser(db, req).Ok?
    ensures ValidateNewUser(db, req).value == Credentials(req.username.value, req.email.value)
    ensures !UsernameTaken(db.users, req.username.value) && !EmailTaken(db.users, req.email.value)
    ensures SaveUser(db, id, NewUser(req.username.value, req.email.value)).Some?
  {
    SaveUserCommits(db, id, NewUser(req.username.value, req.email.value));
  }

  // ---------------------------------------------------------------------
  // UserForUserSerializer on a partial update of one's own row

  /** The fields a PATCH may carry; a missing field is left as it is. The
      role is accepted in the body but is a read-only field. */
  datatype UserPatch = UserPatch(
    username: Option<string>,
    email: Option<string>,
    firstName: Option<string>,
    lastName: Option<string>,
    bio: Option<string>,
    role: Option<Role>)

  /** The validation of a partial update of row id: every field given is
      within its length, username and email are not blank and no other row
      uses them. There is no reserved-name check on this serializer. */
  predicate SelfPatchValid(db: Db, id: UserId, p: UserPatch)
  {
    && (p.username.Some? ==>
          p.username.value != "" && |p.username.value| <= UsernameMaxLength
          && forall k :: k in db.users && k != id ==> db.users[k].username != p.username.value)
    && (p.email.Some? ==>
          p.email.value != "" && |p.email.value| <= EmailMaxLength
          && forall k :: k in db.users && k != id ==> db.users[k].email != p.email.value)
    && (p.firstName.Some? ==> |p.firstName.value| <= NameMaxLength)
    && (p.lastName.Some? ==> |p.lastName.value| <= NameMaxLength)
  }

  function Override<T>(given: Option<T>, current: T): T
  {
    if given.Some? then given.value else current
  }

  /** The row after the update: the writable fields given replace the stored
      ones; the role in the body is ignored. */
  function ApplySelfPatch(row: User, p: UserPatch): User
  {
    row.(username := Override(p.username, row.username),
         email := Override(p.email, row.email),
         firstName := if p.firstName.Some? then p.firstName else row.firstName,
         lastName := if p.lastName.Some? then p.lastName else row.lastName,
         bio := if p.bio.Some? then p.bio else row.bio)
  }

  /** A self-update never changes the role or the superuser flag, whatever
      the body says, and changes exactly the fields it gives. */
  lemma ApplySelfPatchKeepsRole(row: User, p: UserPatch)
    ensures ApplySelfPatch(row, p).role == row.role
    ensures ApplySelfPatch(row, p).isSuperuser == row.isSuperuser
    ensures p.username.None? && p.email.None? && p.firstName.None? && p.lastName.None? && p.bio.None? ==>
      ApplySelfPatch(row, p) == row
    ensures ApplySelfPatch(row, p).username == (if p.username.Some? then p.username.value else row.username)
    ensures ApplySelfPatch(row, p).email == (if p.email.Some? then p.email.value else row.email)
    ensures ApplySelfPatch(row, p).firstName == (if p.firstName.Some? then p.firstName else row.firstName)
    ensures ApplySelfPatch(row, p).lastName == (if p.lastName.Some? then p.lastName else row.lastName)
    ensures ApplySelfPatch(row, p).bio == (if p.bio.Some? then p.bio else row.bio)
  {
  }

  /** A valid self-update commits. */
  lemma SelfPatchCommits(db: Db, id: UserId, p: UserPatch)
    requires Constraints(db) && id in db.users && SelfPatchValid(db, id, p)
    ensures SaveUser(db, id, ApplySelfPatch(db.users[id], p)).Some?
  {
    SaveUserCommits(db, id, ApplySelfPatch(db.users[id], p));
  }

  /** Unlike the signup serializer, the self-update accepts the reserved
      name. */
  lemma SelfPatchAcceptsReservedName(db: Db, id: UserId)
    requires forall k :: k in db.users && k != id ==> db.users[k].username != "me"
    ensures SelfPatchValid(db, id, UserPatch(Some("me"), None, None, None, None, None))
    ensures ValidateUsername("me").Fail?
  {
    ValidateUsernameRefuses("me");
  }
}
