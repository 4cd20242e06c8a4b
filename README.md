# yamdb: a verified model of the review site's core

yamdb is a Django REST review site. Users sign up by e-mail and exchange a
confirmation code for an access token. Administrators curate categories,
genres and titles. Users review titles with a score from 1 to 10 and comment
on reviews, and every title shows a rating derived from its reviews.

This project models four parts of it in Dafny:

- **Permission classes** (`permissions.dfy`, module `Permissions`):
  - the four classes of the API and the three built-in ones the views list, as predicates over an `Actor` and an HTTP `Method`;
  - the way a view combines its classes (every class must allow the request);
  - the class list of each view.
- **Serializer validation** (`serializers.dfy`, module `Serializers`):
  - the reserved username `me` in any case;
  - the year and score ranges;
  - the one-review-per-title check on POST;
  - the required fields of the token request;
  - the validation of a new user at signup;
  - the partial self-update, whose `role` is read-only.
- **The relational store** (`models.dfy`, module `Models`; `database.dfy`, module `Database`):
  - the eight tables as maps from primary key to row;
  - the constraints the database enforces: unique columns, the one-to-one `Code.user`, `unique_author_review`, foreign keys;
  - the score range the serializers guarantee;
  - each write, which commits only when the resulting state meets every constraint;
  - the CASCADE and SET_NULL deletion rules;
  - `Title.rating` (`rating.dfy`, module `Rating`).

  `Database.Store` is a class whose map fields its methods update in place. Each method is proved to keep the invariant and to produce exactly the state its `Models` function describes.
- **The endpoints** (`views.dfy`, module `Views`):
  - signup and token exchange;
  - the user's own profile (`me`);
  - review and comment creation and listing;
  - category and genre deletion by slug.

  Each endpoint that can write is a function from (database, next key, request) to a `Step`, which holds the new database, the next key, the mails sent and the response. The read-only endpoints (`Token`, `ListReviews`, `ListComments`) return a `Result` instead. Each endpoint that writes also has a method on a `Store`, proved to do what its function says.

Two defects of the views are modelled as written:

- **Signup for an existing (username, email) pair** runs `Code.objects.update` with no filter. Every code row gets that user and the new code.
  - Because `Code.user` is one-to-one, the update commits exactly when the code table has at most one row (`Views.SignupExistingPair`).
  - Otherwise the request ends in an integrity error and no mail is sent.
- **Token exchange** tests `if Code.DoesNotExist:`. That is an exception class, so the test is always true (`Views.CodeDoesNotExistIsTruthy`).
  - No token is ever issued and the submitted code is never compared (`Views.TokenNeverIssued`).

Other behaviours of the code worth knowing:

- **The self-update serializer** has no reserved-name check, so `me` passes there (`Serializers.SelfPatchAcceptsReservedName`).
- **The year range:**
  - `validate_year` itself accepts [0, current year].
  - The model field's validators (at least 1700, a positive small integer) run first.
  - So the accepted range is [1700, current year] (`Serializers.TitleYearRange`).
- **A duplicate review in a race** is not translated: the constraint violation surfaces as an integrity error.
- **Signup** validates the serializer's optional fields (names, bio, role) when present, but stores only username and email; the new user always gets the default role.

## Model

| member | source | states |
|---|---|---|
| Permissions.AdminOrReadOnly | api_yamdb/api/permissions.py:7-14 | IsAdminOrReadOnly.has_permission; decided by AdminOrReadOnlyAnonymous and AdminOrReadOnlyMember |
| Permissions.AdminOrReadOnlyObject | api_yamdb/api/permissions.py:16-23 | its has_object_permission; AdminOrReadOnlyMember proves it agrees with the view level |
| Permissions.NobodyAllows | api_yamdb/api/permissions.py:26-31 | NobodyAllow at both levels; see NobodyAllowDenies |
| Permissions.Admin | api_yamdb/api/permissions.py:36-40 | IsAdmin.has_permission; see AdminIgnoresMethod |
| Permissions.AdminObject | api_yamdb/api/permissions.py:42-45 | IsAdmin.has_object_permission; see AdminIgnoresMethod |
| Permissions.ModeratorOwnerOrReadOnly | api_yamdb/api/permissions.py:49-53 | IsAdminModeratorOwnerOrReadOnly.has_permission; see ModeratorOwnerOrReadOnlyDecides |
| Permissions.ModeratorOwnerOrReadOnlyObject | api_yamdb/api/permissions.py:55-61 | its has_object_permission, defined where the role can be read; see ModeratorOwnerOrReadOnlyObjectDecides |
| Permissions.HasPermission | api_yamdb/api/permissions.py:4-61 | the view-level check of each listed class; see SafeMethodsAdmitted |
| Permissions.HasObjectPermission | api_yamdb/api/permissions.py:4-61 | the object-level check of each listed class; see SafeMethodsAdmitted |
| Permissions.CheckPermissions | api_yamdb/api/views.py:171-174 | the combination of a view's classes; CheckPermissionsAll proves it is their conjunction |
| Permissions.CheckObjectPermissions | api_yamdb/api/views.py:189 | the object-level combination, run after the view level; see FeedbackAccessDecides |
| Permissions.AdminOrReadOnlyAnonymous | api_yamdb/api/permissions.py:14-23 | IsAdminOrReadOnly admits an anonymous request, at view and object level, exactly when the method is safe |
| Permissions.AdminOrReadOnlyMember | api_yamdb/api/permissions.py:8-22 | for an authenticated user IsAdminOrReadOnly admits exactly safe methods, admins and superusers; the object check answers the same |
| Permissions.NobodyAllowDenies | api_yamdb/api/permissions.py:26-31 | NobodyAllow refuses every request and every object |
| Permissions.AdminIgnoresMethod | api_yamdb/api/permissions.py:34-45 | IsAdmin admits exactly authenticated admins and superusers, whatever the method, at both levels |
| Permissions.ModeratorOwnerOrReadOnlyDecides | api_yamdb/api/permissions.py:49-53 | the view-level check admits exactly safe methods and authenticated users, so an anonymous write is refused |
| Permissions.ModeratorOwnerOrReadOnlyObjectDecides | api_yamdb/api/permissions.py:55-61 | the object check admits exactly a safe method, the author, a moderator or an admin; a superuser who is none of these is refused |
| Permissions.ObjectCheckDefined | api_yamdb/api/permissions.py:55-61 | passing the view-level check makes the object check defined (an anonymous actor has no role to read) |
| Permissions.SafeMethodsAdmitted | api_yamdb/api/permissions.py:4-61 | every class but IsAdmin, NobodyAllow and IsAuthenticated admits any safe request at both levels |
| Permissions.CheckPermissionsAll | api_yamdb/api/views.py:171-174 | a view admits a request exactly when every class it lists does |
| Permissions.CheckOne | api_yamdb/api/views.py:189 | a view listing one class decides as that class |
| Permissions.TitleViewIsAdminOrReadOnly | api_yamdb/api/views.py:171-174 | the title view's pair of classes decides exactly as IsAdminOrReadOnly |
| Permissions.AnonymousWritesDenied | api_yamdb/api/views.py:40-207 | no view but signup and token admits an anonymous unsafe request |
| Permissions.ReadsAdmitted | api_yamdb/api/views.py:135-207 | category, genre, title, review, comment and signup views admit every safe request |
| Permissions.FeedbackAccessDecides | api_yamdb/api/views.py:189 | a review or comment request passes both levels exactly when the method is safe, or the actor is authenticated and is the author, a moderator or an admin |
| Serializers.Lower | api_yamdb/api/serializers.py:22 | lower-casing keeps the length and maps each character through the ASCII case fold |
| Serializers.ValidateUsername | api_yamdb/api/serializers.py:21-26 | validate_username; ValidateUsernameRefuses states exactly what it refuses |
| Serializers.ValidateUsernameRefuses | api_yamdb/api/serializers.py:21-26 | a username is refused exactly when it is one of me, Me, mE, ME; otherwise it is returned unchanged |
| Serializers.ValidateYear | api_yamdb/api/serializers.py:102-108 | validate_year with the current year passed in; see ValidateYearRange |
| Serializers.TitleYear | api_yamdb/reviews/models.py:83-88 | the field's validators, then validate_year; see TitleYearRange |
| Serializers.ValidateYearRange | api_yamdb/api/serializers.py:102-108 | validate_year accepts exactly the years in [0, current year] and returns them unchanged |
| Serializers.TitleYearRange | api_yamdb/reviews/models.py:83-88 | after the field's validators a year is accepted exactly when it lies in [1700, current year] and fits a small integer |
| Serializers.ValidateScore | api_yamdb/api/serializers.py:124-129 | validate_score; see ValidateScoreKeepsRange |
| Serializers.ValidateScoreKeepsRange | api_yamdb/api/serializers.py:124-129 | validate_score accepts exactly 1..10, returns the score unchanged, and an accepted score keeps every stored score in range |
| Serializers.ReviewFieldsOf | api_yamdb/reviews/models.py:153-163 | field-level validation of a review; see ReviewFieldsOfAccepts |
| Serializers.ReviewFieldsOfAccepts | api_yamdb/reviews/models.py:153-163 | review fields pass exactly when the text is present and non-blank and the score is given and in 1..10 |
| Serializers.ValidateReview | api_yamdb/api/serializers.py:131-143 | ReviewSerializer.validate; see ValidateReviewOutcomes |
| Serializers.ValidateReviewOutcomes | api_yamdb/api/serializers.py:131-143 | validate answers 404 exactly when the title is missing, refuses exactly a POST by a user who already reviewed the title, never refuses another method, and otherwise returns the data |
| Serializers.ValidatedReviewCommits | api_yamdb/api/serializers.py:136-142 | a review that passes the duplicate check on POST commits under a fresh key |
| Serializers.ValidateTokenRequest | api_yamdb/api/serializers.py:29-37 | the token request's required fields; see ValidateTokenRequestRequires |
| Serializers.ValidateTokenRequestRequires | api_yamdb/api/serializers.py:29-31 | the token request is refused with 400 exactly when username or confirmation_code is missing or blank |
| Serializers.ValidateNewUser | api_yamdb/api/serializers.py:9-26 | the user serializer on a signup request; see ValidateNewUserAccepts |
| Serializers.ValidateNewUserAccepts | api_yamdb/api/serializers.py:9-26 | a signup request passes exactly when username and email are present, within length, not reserved and not taken, and the optional names and role are valid; it yields the request's own credentials |
| Serializers.ValidateNewUserReserved | api_yamdb/api/serializers.py:21-26 | a new user named me in any case never passes validation |
| Serializers.ValidatedUserCommits | api_yamdb/reviews/models.py:16-17 | credentials that pass are the request's own, neither username nor email is taken, and the new row commits under a fresh key |
| Serializers.SelfPatchValid | api_yamdb/api/serializers.py:40-48 | the validation of a partial self-update; see SelfPatchCommits and SelfPatchAcceptsReservedName |
| Serializers.ApplySelfPatch | api_yamdb/api/serializers.py:40-48 | the row after a self-update with role read-only; see ApplySelfPatchKeepsRole |
| Serializers.ApplySelfPatchKeepsRole | api_yamdb/api/serializers.py:40-48 | a self-update never changes the role or the superuser flag; each of username, email, first_name, last_name and bio takes the given value when given and keeps the stored one otherwise |
| Serializers.SelfPatchCommits | api_yamdb/api/views.py:122-126 | a self-update that passes validation commits |
| Serializers.SelfPatchAcceptsReservedName | api_yamdb/api/serializers.py:40-48 | the self-update serializer accepts the name me, which the signup serializer refuses |
| Rating.Average | api_yamdb/reviews/models.py:111 | the average is none exactly over no scores, and otherwise times the count equals the sum |
| Rating.RatingOf | api_yamdb/reviews/models.py:110-118 | Title.rating's test of the average; see RatingOfScores |
| Rating.RatingOfScores | api_yamdb/reviews/models.py:110-118 | over scores in 1..10 the rating is none exactly when there are no scores, otherwise it is their average and lies in [1, 10] |
| Models.SaveUser | api_yamdb/reviews/models.py:9-21 | saving a user row under the constraints; see SaveUserCommits and SaveUserRefusesDuplicate |
| Models.SaveCode | api_yamdb/reviews/models.py:27-29 | saving a code row; see SaveCodeCommits and SaveCodeRefusesDuplicate |
| Models.SaveCategory | api_yamdb/reviews/models.py:32-43 | saving a category; see SaveCategoryRefusesDuplicate |
| Models.SaveGenre | api_yamdb/reviews/models.py:54-65 | saving a genre; see SaveGenreRefusesDuplicate |
| Models.SaveTitle | api_yamdb/reviews/models.py:76-102 | saving a title; Database.Store.CreateTitle keeps the invariant through it |
| Models.SaveGenreTitle | api_yamdb/reviews/models.py:124-135 | saving a genre link; Database.Store.CreateGenreTitle keeps the invariant through it |
| Models.SaveReview | api_yamdb/reviews/models.py:145-175 | saving a review; see SaveReviewCommits, SaveReviewRefusesDuplicate and SaveReviewRefusesDangling |
| Models.SaveComment | api_yamdb/reviews/models.py:184-198 | saving a comment; see SaveCommentCommits and SaveCommentRefusesDangling |
| Models.UpdateAllCodes | api_yamdb/api/views.py:68-71 | the unfiltered update of the code table; see UpdateAllCodesCommits |
| Models.SaveUserCommits | api_yamdb/reviews/models.py:16-17 | a user row whose username and email no other row has commits |
| Models.SaveUserRefusesDuplicate | api_yamdb/reviews/models.py:16-17 | a user row that repeats another row's username or email is refused |
| Models.SaveCodeCommits | api_yamdb/reviews/models.py:27-29 | a code row for an existing user who owns no other code commits |
| Models.SaveCodeRefusesDuplicate | api_yamdb/reviews/models.py:28 | a second code row for the same user is refused |
| Models.SaveCategoryRefusesDuplicate | api_yamdb/reviews/models.py:34-43 | a category repeating another's name or slug is refused |
| Models.SaveGenreRefusesDuplicate | api_yamdb/reviews/models.py:56-65 | a genre repeating another's name or slug is refused |
| Models.SaveReviewCommits | api_yamdb/reviews/models.py:145-175 | a review of an existing title by an existing user, with no other review of that pair, commits |
| Models.SaveReviewRefusesDuplicate | api_yamdb/reviews/models.py:169-175 | a second review of the same title by the same author is refused |
| Models.SaveReviewRefusesDangling | api_yamdb/reviews/models.py:147-158 | a review whose title or author does not exist is refused |
| Models.SavedReviewValid | api_yamdb/reviews/models.py:160-163 | a review with a score in 1..10 that commits keeps every constraint and every stored score in range |
| Models.SaveCommentCommits | api_yamdb/reviews/models.py:184-198 | a comment on an existing review by an existing user commits |
| Models.SaveCommentRefusesDangling | api_yamdb/reviews/models.py:186-198 | a comment whose review or author does not exist is refused |
| Models.SameOwnerOnePerUser | api_yamdb/reviews/models.py:28 | giving every code row one owner keeps Code.user one-to-one exactly when there is at most one row |
| Models.UpdateAllCodesCommits | api_yamdb/api/views.py:68-71 | the unfiltered update of the code table commits exactly when it holds at most one row |
| Models.DeleteCategory | api_yamdb/reviews/models.py:90-96 | deletion with SET_NULL; see DeleteCategoryValid and DeleteCategoryNullsTitles |
| Models.DeleteGenre | api_yamdb/reviews/models.py:131-135 | deletion with its cascade to links; see DeleteGenreValid |
| Models.DeleteTitle | api_yamdb/reviews/models.py:147-152 | deletion with its cascades; see DeleteTitleValid and DeleteTitleCascade |
| Models.DeleteUser | api_yamdb/reviews/models.py:154-158 | deletion with its cascades; see DeleteUserValid and DeleteUserCascade |
| Models.DeleteReview | api_yamdb/reviews/models.py:186-191 | deletion with its cascade to comments; see DeleteReviewValid |
| Models.DeleteComment | api_yamdb/reviews/models.py:184-198 | deletion of one comment; see DeleteCommentValid |
| Models.DeleteCategoryValid | api_yamdb/reviews/models.py:90-96 | deleting a category keeps the invariant |
| Models.DeleteCategoryNullsTitles | api_yamdb/reviews/models.py:90-96 | deleting a category removes only it, keeps every title with its name, year and description, nulls the category of those that had it, and changes no other table |
| Models.DeleteGenreValid | api_yamdb/reviews/models.py:131-135 | deleting a genre, with its links, keeps the invariant |
| Models.DeleteTitleValid | api_yamdb/reviews/models.py:147-152 | deleting a title, with its links, reviews and their comments, keeps the invariant |
| Models.DeleteTitleCascade | api_yamdb/reviews/models.py:147-152 | deleting a title removes exactly its links, its reviews and the comments on them, leaves every kept row as it was, and changes no other table |
| Models.DeleteUserValid | api_yamdb/reviews/models.py:154-158 | deleting a user, with their code, reviews and comments, keeps the invariant |
| Models.DeleteUserCascade | api_yamdb/reviews/models.py:154-158 | deleting a user removes exactly their code, their reviews with every comment on them and their own comments, leaves every kept row as it was, and changes no other table |
| Models.DeleteReviewValid | api_yamdb/reviews/models.py:186-191 | deleting a review, with its comments, keeps the invariant |
| Models.DeleteCommentValid | api_yamdb/reviews/models.py:184-198 | deleting a comment keeps the invariant |
| Models.ScoresAmongCount | api_yamdb/reviews/models.py:111 | the scores aggregated for a title are one per review of that title |
| Models.ScoresAmongPick | api_yamdb/reviews/models.py:111 | each review among the rows contributes exactly its own score, and only when it reviews the title, in whatever order the rows are read |
| Models.TitleRating | api_yamdb/reviews/models.py:109-118 | Title.rating over the stored reviews; see TitleRatingMeaning |
| Models.TitleRatingMeaning | api_yamdb/reviews/models.py:109-118 | a title's rating is none exactly when it has no reviews, otherwise it is the average of its scores and lies in [1, 10] |
| Database.Store.CreateUser | api_yamdb/api/views.py:54 | inserts a user under the next key when it commits, else changes nothing; keeps the invariant |
| Database.Store.UpdateUser | api_yamdb/api/views.py:125-126 | replaces an existing user row when it commits, else changes nothing; keeps the invariant |
| Database.Store.CreateCode | api_yamdb/api/views.py:55-58 | inserts a code under the next key when it commits, else changes nothing; keeps the invariant |
| Database.Store.UpdateAllCodes | api_yamdb/api/views.py:68-71 | rewrites every code row when that commits, else changes nothing; keeps the invariant |
| Database.Store.CreateCategory | api_yamdb/api/views.py:140-143 | inserts a category under the next key when it commits; keeps the invariant |
| Database.Store.CreateGenre | api_yamdb/api/views.py:158-161 | inserts a genre under the next key when it commits; keeps the invariant |
| Database.Store.CreateTitle | api_yamdb/reviews/models.py:76-102 | inserts a title under the next key when it commits; keeps the invariant |
| Database.Store.CreateGenreTitle | api_yamdb/reviews/models.py:124-135 | inserts a genre link under the next key when it commits; keeps the invariant |
| Database.Store.CreateReview | api_yamdb/api/views.py:200 | inserts a validated review under the next key when it commits; keeps every constraint and the score range |
| Database.Store.CreateComment | api_yamdb/api/views.py:218 | inserts a comment under the next key when it commits; keeps the invariant |
| Database.Store.DeleteCategory | api_yamdb/api/views.py:147 | performs the category deletion with SET_NULL and keeps the invariant |
| Database.Store.DeleteGenre | api_yamdb/api/views.py:165 | performs the genre deletion with its cascade and keeps the invariant |
| Database.Store.DeleteTitle | api_yamdb/reviews/models.py:147-152 | performs the title deletion with its cascades and keeps the invariant |
| Database.Store.DeleteUser | api_yamdb/reviews/models.py:154-158 | performs the user deletion with its cascades and keeps the invariant |
| Database.Store.DeleteReview | api_yamdb/reviews/models.py:186-191 | performs the review deletion with its cascade and keeps the invariant |
| Database.Store.DeleteComment | api_yamdb/reviews/models.py:184-198 | removes one comment and keeps the invariant |
| Database.Store.SendMail | api_yamdb/api/views.py:59-65 | appends exactly the given message to the outbox |
| Views.PairOwner | api_yamdb/api/views.py:52 | finds a user exactly when one has both the username and the email, and returns that user |
| Views.UserNamed | api_yamdb/api/views.py:90 | finds a user exactly when the username is taken, and returns its owner |
| Views.CategoryBySlug | api_yamdb/api/views.py:146 | finds a category exactly when one has the slug, and returns it |
| Views.GenreBySlug | api_yamdb/api/views.py:164 | finds a genre exactly when one has the slug, and returns it |
| Views.Signup | api_yamdb/api/views.py:46-79 | the signup action as written; see SignupNewPair, SignupRefused, SignupExistingPair and SignupMails |
| Views.Register | api_yamdb/api/views.py:52-66 | the new-pair branch; see SignupNewPair and SignupRefused |
| Views.Resend | api_yamdb/api/views.py:67-79 | the existing-pair branch; see SignupExistingPair |
| Views.SignupNewPair | api_yamdb/api/views.py:52-66 | a new valid pair adds exactly one user with the default role and one code owned by it holding the generated code, mails that code to the address and echoes the request |
| Views.SignupRefused | api_yamdb/api/views.py:53 | a new pair that fails validation creates nothing, sends nothing and answers 400 |
| Views.SignupReservedName | api_yamdb/api/views.py:52-53 | a new pair named me in any case answers 400 and changes nothing |
| Views.SignupExistingPair | api_yamdb/api/views.py:67-79 | an existing pair adds no user, and succeeds exactly when at most one code row exists, rewriting every code row and mailing the code; otherwise nothing changes |
| Views.SignupMails | api_yamdb/api/views.py:59-79 | a successful signup sends exactly one mail, the code to the request's address; a failed one sends none |
| Views.SignupAction | api_yamdb/api/views.py:46-79 | the store goes through exactly the step Signup describes and keeps its invariant |
| Views.RegisterAction | api_yamdb/api/views.py:52-66 | the store goes through exactly the new-pair branch and keeps its invariant |
| Views.ResendAction | api_yamdb/api/views.py:67-79 | the store goes through exactly the existing-pair branch and keeps its invariant |
| Views.Token | api_yamdb/api/views.py:85-99 | the token action as written; see TokenNeverIssued |
| Views.TokenNeverIssued | api_yamdb/api/views.py:85-99 | no token is ever issued: 404 exactly when both fields are given and the username is unknown, 400 otherwise, whatever the code |
| Views.SelfProfile | api_yamdb/api/views.py:115-129 | GET or PATCH on the user's own row; see SelfProfileOutcomes and SelfProfileKeepsRole |
| Views.SelfProfileOutcomes | api_yamdb/api/views.py:115-129 | an anonymous request is refused with 401; a valid PATCH saves and returns the updated row; anything else returns the stored row unchanged |
| Views.SelfProfileKeepsRole | api_yamdb/api/views.py:119-129 | no profile request changes any user's role or superuser flag, the set of users or another table |
| Views.SelfProfileAction | api_yamdb/api/views.py:119-129 | the store goes through exactly the step SelfProfile describes and keeps its invariant |
| Views.CreateReview | api_yamdb/api/views.py:196-200 | review POST; see CreateReviewOutcomes and CreateReviewBinds |
| Views.CreateReviewOutcomes | api_yamdb/api/views.py:196-200 | review POST answers 401, 400 for bad fields, 404 for a missing title, 400 for a second review, and succeeds otherwise |
| Views.CreateReviewBinds | api_yamdb/api/views.py:196-200 | a created review is the only change, keyed by the next key, with the requesting user as author and the path title as title |
| Views.CreateReviewAction | api_yamdb/api/views.py:196-200 | the store goes through exactly the step CreateReview describes and keeps its invariant |
| Views.ListReviews | api_yamdb/api/views.py:191-194 | review listing under a title; see ListReviewsRating |
| Views.ListReviewsRating | api_yamdb/api/views.py:191-194 | listing answers 404 exactly for a missing title, lists exactly that title's reviews, and is empty exactly when the title has no rating |
| Views.CreateComment | api_yamdb/api/views.py:214-218 | comment POST; see CreateCommentScoped |
| Views.CreateCommentScoped | api_yamdb/api/views.py:214-218 | an authenticated POST with text answers 404 exactly when the review does not exist under the path title, else stores the comment on that review by the requesting user |
| Views.CreateCommentAction | api_yamdb/api/views.py:214-218 | the store goes through exactly the step CreateComment describes and keeps its invariant |
| Views.ListComments | api_yamdb/api/views.py:209-212 | comment listing under a review; see ListCommentsIgnoresTitle |
| Views.ListCommentsIgnoresTitle | api_yamdb/api/views.py:209-212 | comment listing answers the same under every title, 404 exactly for a missing review, else all its comments |
| Views.CommentScopeMismatch | api_yamdb/api/views.py:209-218 | for any review under one title and any other title in the path, listing answers as under the review's own title and succeeds, while an authenticated POST with text is refused with 404 and changes nothing |
| Views.CommentScopeExample | api_yamdb/api/views.py:209-218 | the mismatch on a concrete valid database |
| Views.DestroyCategory | api_yamdb/api/views.py:145-147 | category DELETE by slug; see DestroyCategoryOutcomes |
| Views.DestroyCategoryOutcomes | api_yamdb/api/views.py:145-147 | only admins and superusers delete; a missing slug answers 404; otherwise exactly the category with the slug goes and its titles lose it; the invariant holds |
| Views.DestroyCategoryAction | api_yamdb/api/views.py:145-147 | the store goes through exactly the step DestroyCategory describes and keeps its invariant |
| Views.DestroyGenre | api_yamdb/api/views.py:163-165 | genre DELETE by slug; see DestroyGenreOutcomes |
| Views.DestroyGenreOutcomes | api_yamdb/api/views.py:163-165 | only admins and superusers delete; a missing slug answers 404; otherwise exactly the genre with the slug and its links go, every kept link and every other table as it was; the invariant holds |
| Views.DestroyGenreAction | api_yamdb/api/views.py:163-165 | the store goes through exactly the step DestroyGenre describes and keeps its invariant |

## Left out

- Mail delivery: `send_mail` is an outbox append that always succeeds. A delivery failure, which would fail the request, is not modelled.
- The confirmation code is a parameter of signup. Its generation with `uuid4` is not modelled.
- The access token is an opaque value. The JWT issuer is not modelled, and no path ever reaches it.
- The rating is an exact rational. The float rounding and the two-decimal formatting of `Title.rating` are not modelled.
- Filtering, search and pagination are not part of this model: `TitleFilter`, `SearchFilter`, `DjangoFilterBackend` and the `ListCreateDestroyViewSet` mixin are framework or library code.
- `max_value_current_year` lives in `validators.py`, which is not part of this model. The current year, which would come from the wall clock, is a parameter of `validate_year`.
- The trimming of whitespace in character fields is not modelled.
- The format check of e-mail and slug fields is not modelled.
- Lower-casing is modelled on ASCII letters only. No non-ASCII character lowercases to `m` or `e`, so the reserved-name check is unaffected.
- A title's year is an optional integer. An explicit null in a request is not modelled.
- `pub_date` timestamps and the default orderings are not modelled: listings are sets.
- The race between the duplicate check and the insert is not modelled. The model is sequential and the unique constraint always holds.
- Out of scope, because their behaviour is the framework's own and not the application's:
  - the admin user endpoints (list, create, retrieve, update and delete by username);
  - title create, update and read;
  - category and genre creation beyond the insert;
  - review and comment update and delete.
- Router wiring, admin registration and migrations hold no logic and are not modelled.
- Serializer output shapes are not modelled: responses carry row values or keys.
- HTTP status plumbing is reduced to the kinds of `Wrappers.Failure`.
- Views.SelfProfileAction: models GET and PATCH only; the action accepts no other method.
- Database.Store.CreateReview: requires a score in 1..10, which the serializer validates before every save. The database does not check the score.
