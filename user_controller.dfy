/**
 * User registration and token issuance (src/controller/user.controller.js).
 * The avatar upload and token signing are parameters of the model; the user
 * collection is a `UserStore`.
 */
module UserController {
  import opened Wrappers
  import opened JsBuiltins
  import opened ApiErrors
  import opened UserModel

  /** `req.body`: field name to its string value. */
  type Body = map<string, string>

  const RequiredFields: seq<string> := ["fullName", "userName", "email", "password"]
  const DefaultRole := "user"
  const AlreadyExists := "User with this email or username already exists"
  const UploadFailed := "Failed to upload avatar on Cloudinary"
  const TokenFailure := "Error generating tokens"

  // ---------------------------------------------------------------------------
  // Registration

  /**
   * `!req.body[field] || req.body[field].trim() === ""`, stated as "absent or
   * white space only" (the two agree by MissingMatchesTrimTest).
   */
  predicate Missing(body: Body, field: string)
    ensures Missing(body, field) ==> field !in body || Trim(body[field]) == ""
  {
    field !in body || IsBlank(body[field])
  }

  lemma MissingMatchesTrimTest(body: Body, field: string)
    ensures Missing(body, field) <==> !Truthy(Lookup(body, field)) || Trim(body[field]) == ""
  {
  }

  /** The position of the first missing field, in the order given. */
  function FirstMissing(body: Body, fields: seq<string>): (r: Option<nat>)
    ensures r.None? <==> forall i :: 0 <= i < |fields| ==> !Missing(body, fields[i])
    ensures r.None? ==> forall f :: f in fields ==> f in body
    ensures r.Some? ==> r.value < |fields| && Missing(body, fields[r.value])
    ensures r.Some? ==> forall i :: 0 <= i < r.value ==> !Missing(body, fields[i])
  {
    if fields == [] then None
    else if Missing(body, fields[0]) then Some(0)
    else match FirstMissing(body, fields[1..])
      case None => None
      case Some(k) => Some(k + 1)
  }

  /** The loop over `requiredFields` with its early return: the first missing field, if any. */
  method CheckRequiredFields(body: Body) returns (missing: Option<string>)
    ensures missing.None? <==> FirstMissing(body, RequiredFields).None?
    ensures missing.Some? ==> missing.value == RequiredFields[FirstMissing(body, RequiredFields).value]
  {
    for i := 0 to |RequiredFields|
      invariant forall j :: 0 <= j < i ==> !Missing(body, RequiredFields[j])
    {
      var field := RequiredFields[i];
      if Missing(body, field) {
        return Some(field);
      }
    }
    return None;
  }

  /** `req.file` after multer, with the local path of the avatar. */
  datatype UploadedFile = UploadedFile(path: string)

  /** `uploadOnCloudinary(path)`: the stored object's id and URL, or null. */
  datatype UploadResult = UploadResult(publicId: string, url: string)

  datatype RegisterOutcome =
      /** `req.file` is undefined, so reading `.path` throws before anything is checked. */
    | NoFile
      /** Answered at once with 400 and "Please provide <field>". */
    | MissingField(field: string)
      /**
       * `new ApiError(400, "Avatar is required")`: status first, whereas the
       * call sites at lines 19, 47 and 55 pass the message first; which one
       * `ApiError` expects is not known, so no status is modelled.
       */
    | AvatarRequired
      /** Thrown to the error handler. */
    | Failed(error: Error)
      /** Answered with 201 and the created user, read back without its password. */
    | Registered(answer: User)

  /** The role from the body, "user" when the body has none. */
  function RoleOf(body: Body): (role: string)
    ensures "role" in body ==> role == body["role"]
    ensures "role" !in body ==> role == DefaultRole
  {
    if "role" in body then body["role"] else DefaultRole
  }

  /** The document handed to `User.create`, before the store assigns its `_id`. */
  function NewUserDoc(body: Body, upload: UploadResult): (u: User)
    requires "fullName" in body && "userName" in body && "email" in body && "password" in body
    ensures u.fullName == body["fullName"] && u.password == Some(body["password"])
    ensures u.userName == ToLowerCase(body["userName"]) && u.email == ToLowerCase(body["email"])
    ensures u.avatar == Avatar(upload.publicId, upload.url)
    ensures u.role == RoleOf(body) && u.refreshToken.None?
  {
    User(0, body["fullName"], ToLowerCase(body["userName"]), ToLowerCase(body["email"]),
         Some(body["password"]), Avatar(upload.publicId, upload.url), RoleOf(body), None)
  }

  /** The document `User.create` stores under the next `_id`. */
  function CreatedUser(body: Body, upload: UploadResult, id: UserId): User
    requires "fullName" in body && "userName" in body && "email" in body && "password" in body
  {
    NewUserDoc(body, upload).(id := id)
  }

  /** What `registerUser` decides for a given store, request and upload outcome. */
  function RegisterDecision(users: map<UserId, User>, nextId: UserId, body: Body,
                            file: Option<UploadedFile>, upload: string -> Option<UploadResult>): (r: RegisterOutcome)
    ensures file.None? ==> r == NoFile
    ensures file.Some? && FirstMissing(body, RequiredFields).Some? ==>
      r == MissingField(RequiredFields[FirstMissing(body, RequiredFields).value])
    ensures r.Registered? <==>
      file.Some? && FirstMissing(body, RequiredFields).None? && file.value.path != "" &&
      !AnyMatch(users, body["email"], body["userName"]) && upload(file.value.path).Some?
    ensures r.Failed? ==> r.error.ApiError? && r.error.statusCode == 400
    ensures file.Some? && FirstMissing(body, RequiredFields).None? && file.value.path == "" ==> r == AvatarRequired
    ensures (file.Some? && FirstMissing(body, RequiredFields).None? && file.value.path != "" &&
      AnyMatch(users, body["email"], body["userName"])) ==> r == Failed(ApiError(400, AlreadyExists))
    ensures (file.Some? && FirstMissing(body, RequiredFields).None? && file.value.path != "" &&
      !AnyMatch(users, body["email"], body["userName"]) && upload(file.value.path).None?) ==>
      r == Failed(ApiError(400, UploadFailed))
    ensures r.Registered? ==> r.answer.password.None?
    ensures r.Registered? ==>
      r.answer == CreatedUser(body, upload(file.value.path).value, nextId).(password := None)
  {
    if file.None? then NoFile
    else match FirstMissing(body, RequiredFields)
      case Some(i) => MissingField(RequiredFields[i])
      case None =>
        if file.value.path == "" then AvatarRequired
        else if AnyMatch(users, body["email"], body["userName"]) then Failed(ApiError(400, AlreadyExists))
        else match upload(file.value.path)
          case None => Failed(ApiError(400, UploadFailed))
          case Some(res) => Registered(CreatedUser(body, res, nextId).(password := None))
  }

  /** A registered user's user name and e-mail address hold no upper-case ASCII letter. */
  lemma RegisteredNamesAreLowerCase(users: map<UserId, User>, nextId: UserId, body: Body,
                                    file: Option<UploadedFile>, upload: string -> Option<UploadResult>)
    requires RegisterDecision(users, nextId, body, file, upload).Registered?
    ensures var u := RegisterDecision(users, nextId, body, file, upload).answer;
      (forall i :: 0 <= i < |u.userName| ==> !IsUpperAscii(u.userName[i])) &&
      (forall i :: 0 <= i < |u.email| ==> !IsUpperAscii(u.email[i])) &&
      ToLowerCase(u.userName) == u.userName && ToLowerCase(u.email) == u.email
  {
  }

  /** The fields are checked in their fixed order: a missing `fullName` is reported whatever else is missing. */
  lemma FullNameReportedFirst(users: map<UserId, User>, nextId: UserId, body: Body,
                              file: Option<UploadedFile>, upload: string -> Option<UploadResult>)
    requires file.Some? && Missing(body, "fullName")
    ensures RegisterDecision(users, nextId, body, file, upload) == MissingField("fullName")
  {
  }

  /** An existing user with the same e-mail address or user name stops the registration with 400. */
  lemma DuplicateRejected(users: map<UserId, User>, nextId: UserId, body: Body,
                          file: Option<UploadedFile>, upload: string -> Option<UploadResult>, id: UserId)
    requires file.Some? && file.value.path != "" && FirstMissing(body, RequiredFields).None?
    requires id in users && (users[id].email == body["email"] || users[id].userName == body["userName"])
    ensures RegisterDecision(users, nextId, body, file, upload) == Failed(ApiError(400, AlreadyExists))
  {
  }

  /**
   * Once a request has registered a user, the same request sent again is
   * rejected as a duplicate when its e-mail address is already lower case:
   * the stored address is lower-cased and the model's query compares verbatim.
   */
  lemma SecondRegistrationRejected(users: map<UserId, User>, nextId: UserId, body: Body,
                                   file: Option<UploadedFile>, upload: string -> Option<UploadResult>)
    requires nextId !in users
    requires RegisterDecision(users, nextId, body, file, upload).Registered?
    requires ToLowerCase(body["email"]) == body["email"]
    ensures var stored := users[nextId := CreatedUser(body, upload(file.value.path).value, nextId)];
      RegisterDecision(stored, nextId + 1, body, file, upload) == Failed(ApiError(400, AlreadyExists))
  {
    var created := CreatedUser(body, upload(file.value.path).value, nextId);
    AnyMatchInsert(users, nextId, created, body["email"], body["userName"]);
  }

  /**
   * `registerUser`: validates, checks for a duplicate, uploads the avatar and
   * creates the user; the store changes only when a user is registered.
   */
  method RegisterUser(store: UserStore, body: Body, file: Option<UploadedFile>,
                      upload: string -> Option<UploadResult>) returns (r: RegisterOutcome)
    requires store.Valid()
    modifies store
    ensures store.Valid()
    ensures r == RegisterDecision(old(store.users), old(store.nextId), body, file, upload)
    ensures r.Registered? ==>
      r.answer.id !in old(store.users) && store.nextId == r.answer.id + 1 &&
      store.users == old(store.users)[r.answer.id := CreatedUser(body, upload(file.value.path).value, r.answer.id)]
    ensures !r.Registered? ==> store.users == old(store.users) && store.nextId == old(store.nextId)
  {
    if file.None? {
      return NoFile;
    }
    var avatarLocalPath := file.value.path;
    var missing := CheckRequiredFields(body);
    if missing.Some? {
      return MissingField(missing.value);
    }
    if avatarLocalPath == "" {
      return AvatarRequired;
    }
    var existingUser := store.FindOne(body["email"], body["userName"]);
    if existingUser.Some? {
      return Failed(ApiError(400, AlreadyExists));
    }
    var avatarResponse := upload(avatarLocalPath);
    if avatarResponse.None? {
      return Failed(ApiError(400, UploadFailed));
    }
    var newUser := store.Create(NewUserDoc(body, avatarResponse.value));
    var userWithoutPassword := store.FindById(newUser.id);
    return Registered(userWithoutPassword.value.(password := None));
  }

  // ---------------------------------------------------------------------------
  // Token issuance

  datatype TokenPair = TokenPair(accessToken: string, refreshToken: string)

  /** `user.generateAccessToken()` / `user.generateRefreshToken()`: a signed token, or `None` when signing throws. */
  type Signer = User -> Option<string>

  /**
   * `generateAccessTokenAndRefreshToken`: the pair it returns and the user
   * collection afterwards. Any failure becomes the same 500 error.
   */
  function IssueTokens(users: map<UserId, User>, userId: UserId, signAccess: Signer, signRefresh: Signer)
    : (r: (Result<TokenPair, Error>, map<UserId, User>))
    ensures r.0.Ok? <==> userId in users && signAccess(users[userId]).Some? && signRefresh(users[userId]).Some?
    ensures r.0.Err? ==> r.0.error == ApiError(500, TokenFailure) && r.1 == users
    ensures r.0.Ok? ==> r.0.value.accessToken == signAccess(users[userId]).value
    ensures r.0.Ok? ==> r.0.value.refreshToken == signRefresh(users[userId]).value
    ensures r.0.Ok? ==> r.1 == users[userId := users[userId].(refreshToken := Some(r.0.value.refreshToken))]
  {
    if userId !in users then (Err(ApiError(500, TokenFailure)), users)
    else
      var user := users[userId];
      match (signAccess(user), signRefresh(user))
      case (Some(a), Some(t)) => (Ok(TokenPair(a, t)), users[userId := user.(refreshToken := Some(t))])
      case _ => (Err(ApiError(500, TokenFailure)), users)
  }

  /** Of two successful issues for one user, only the second refresh token stays stored. */
  lemma SecondIssueSupersedesFirst(users: map<UserId, User>, userId: UserId,
                                   access1: Signer, refresh1: Signer, access2: Signer, refresh2: Signer)
    requires IssueTokens(users, userId, access1, refresh1).0.Ok?
    requires IssueTokens(IssueTokens(users, userId, access1, refresh1).1, userId, access2, refresh2).0.Ok?
    ensures var (first, after1) := IssueTokens(users, userId, access1, refresh1);
      var (second, after2) := IssueTokens(after1, userId, access2, refresh2);
      after2[userId].refreshToken == Some(second.value.refreshToken) &&
      (first.value.refreshToken != second.value.refreshToken ==>
         after2[userId].refreshToken != Some(first.value.refreshToken)) &&
      after2.Keys == users.Keys &&
      forall id :: id in users && id != userId ==> after2[id] == users[id]
  {
  }

  /** The method form, on the store: load, sign twice, overwrite `refreshToken`, save. */
  method GenerateAccessTokenAndRefreshToken(store: UserStore, userId: UserId, signAccess: Signer, signRefresh: Signer)
    returns (r: Result<TokenPair, Error>)
    requires store.Valid()
    modifies store
    ensures store.Valid()
    ensures (r, store.users) == IssueTokens(old(store.users), userId, signAccess, signRefresh)
    ensures store.nextId == old(store.nextId)
  {
    var user := store.FindById(userId);
    if user.None? {
      return Err(ApiError(500, TokenFailure));
    }
    var accessToken := signAccess(user.value);
    var refreshToken := signRefresh(user.value);
    if accessToken.None? || refreshToken.None? {
      return Err(ApiError(500, TokenFailure));
    }
    var updated := user.value.(refreshToken := Some(refreshToken.value));
    store.Save(updated);
    return Ok(TokenPair(accessToken.value, refreshToken.value));
  }
}
