/** `registerUser`: field validation, the conflict check, the avatar and
    cover uploads, and the creation of the user, answered without its
    password and refresh token. It has no catch, so each error keeps its
    own status. */
module UserController {
  import opened Api
  import opened Models
  import opened Js
  import opened Store

  /** The `findOne({ $or: [{ username }, { email }] })` conflict check: some
      stored user has exactly this username or this email. */
  predicate Taken(users: map<Id, User>, username: string, email: string) {
    exists id :: id in users && (users[id].username == username || users[id].email == email)
  }

  /** Every stored username is already in lower case, as `registerUser`
      stores it. */
  predicate LowercaseUsernames(users: map<Id, User>) {
    forall id :: id in users ==> users[id].username == ToLowerCase(users[id].username)
  }

  /** `coverImage?.url || ""`: the cover URL when a cover was uploaded. */
  function CoverUrl(coverImage: FileInput): (url: string)
    ensures coverImage.NoFile? || coverImage.upload.None? ==> url == ""
    ensures coverImage.File? && coverImage.upload.Some? ==> url == coverImage.upload.value.url
  {
    if coverImage.File? && coverImage.upload.Some? then coverImage.upload.value.url else ""
  }

  /** The user as the response carries it: `password` and `refreshToken`
      cleared, every other field as stored. */
  function WithoutSecrets(user: User): (shown: User)
    ensures shown.password.None? && shown.refreshToken.None?
    ensures shown.(password := user.password, refreshToken := user.refreshToken) == user
  {
    user.(password := None, refreshToken := None)
  }

  method RegisterUser(db: Db, fullname: string, username: string, email: string, password: string,
                      avatar: FileInput, coverImage: FileInput, newId: Id)
    returns (r: Result<User>, calls: seq<MediaCall>)
    requires db.Valid()
    requires newId != "" && newId !in db.users
    modifies db
    ensures db.Valid()
    ensures LowercaseUsernames(old(db.users)) ==> LowercaseUsernames(db.users)
    ensures fullname == "" || username == "" || email == "" || password == "" ==>
      r == Err(400, "Please fill in all fields") && calls == []
    ensures fullname != "" && username != "" && email != "" && password != ""
            && Taken(old(db.users), username, email) ==>
      r == Err(409, "User already exists") && calls == []
    ensures fullname != "" && username != "" && email != "" && password != ""
            && !Taken(old(db.users), username, email) && avatar.NoFile? ==>
      r == Err(400, "Please upload an avatar") && calls == []
    ensures fullname != "" && username != "" && email != "" && password != ""
            && !Taken(old(db.users), username, email) && avatar.File? ==>
      calls == [Upload("avatar")] + (if coverImage.File? then [Upload("coverImage")] else [])
    ensures fullname != "" && username != "" && email != "" && password != ""
            && !Taken(old(db.users), username, email) && avatar.File? && avatar.upload.None? ==>
      r == Err(500, "Failed to upload avatar image")
    ensures r.Err? ==> unchanged(db)
    ensures r.Ok? <==>
      && fullname != "" && username != "" && email != "" && password != ""
      && !Taken(old(db.users), username, email) && avatar.File? && avatar.upload.Some?
    ensures r.Ok? ==>
      var stored := User(fullname, ToLowerCase(username), email, Some(password),
                         avatar.upload.value.url, CoverUrl(coverImage), None);
      && db.Snapshot() == old(db.Snapshot()).(users := old(db.users)[newId := stored])
      && r.value == WithoutSecrets(stored)
  {
    calls := [];
    if fullname == "" || username == "" || email == "" || password == "" {
      return Err(400, "Please fill in all fields"), calls;
    }
    if Taken(db.users, username, email) {
      return Err(409, "User already exists"), calls;
    }
    if avatar.NoFile? {
      return Err(400, "Please upload an avatar"), calls;
    }
    calls := calls + [Upload("avatar")];
    var avatarUpload := avatar.upload;
    if coverImage.File? {
      calls := calls + [Upload("coverImage")];
    }
    if avatarUpload.None? {
      return Err(500, "Failed to upload avatar image"), calls;
    }
    var user := User(fullname, ToLowerCase(username), email, Some(password),
                     avatarUpload.value.url, CoverUrl(coverImage), None);
    ToLowerCaseIdempotent(username);
    db.users := db.users[newId := user];
    r := Ok(WithoutSecrets(user));
  }

  /** The conflict check compares the username as given, while usernames
      are stored lowercased: a name with an upper-case letter never
      matches a stored one, so it passes the check even when its lowercase
      form is already taken (and is then stored as that same form). */
  lemma MixedCaseUsernamePassesCheck(users: map<Id, User>, username: string, email: string, i: nat)
    requires LowercaseUsernames(users)
    requires forall id :: id in users ==> users[id].email != email
    requires i < |username| && IsUpper(username[i])
    ensures !Taken(users, username, email)
  {
    forall id | id in users
      ensures users[id].username != username
    {
      assert |users[id].username| <= i || !IsUpper(ToLowerCase(users[id].username)[i]);
    }
  }
}
