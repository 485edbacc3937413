/** Admin login of src/utils.js: `isAuthed` and `requireAuth`. The bcrypt comparison is a
  * parameter `matches(password, hash)` the model knows nothing about. */
module Auth {
  import opened Common
  import opened Text
  import opened Store
  import opened Sessions

  /** `isAuthed`: `Boolean(req.session?.admin?.username)`, so an empty user name is not a login. */
  predicate IsAuthed(admin: Option<string>) {
    admin.Some? && admin.value != ""
  }

  /** `String(pass || "")`. */
  function PasswordOf(pass: Option<string>): (r: string)
    ensures pass.None? ==> r == ""
  {
    match pass
    case None => ""
    case Some(p) => p
  }

  /** Whether `requireAuth` accepts: an admin with the trimmed user name exists, and the password
    * matches that admin's stored hash. */
  predicate LoginSucceeds(admins: seq<Admin>, user: Option<string>, pass: Option<string>,
                          matches: (string, string) -> bool)
  {
    match AdminNamed(admins, Safe(user))
    case None => false
    case Some(k) => matches(PasswordOf(pass), admins[k].passwordHash)
  }

  /** A user name that no admin has is refused, whatever the password. */
  lemma UnknownUserRefused(admins: seq<Admin>, user: Option<string>, pass: Option<string>,
                           matches: (string, string) -> bool)
    requires forall k :: 0 <= k < |admins| ==> admins[k].username != Safe(user)
    ensures !LoginSucceeds(admins, user, pass, matches)
  {
  }

  /** A password that fails the check against the admin's hash is refused. */
  lemma WrongPasswordRefused(admins: seq<Admin>, user: Option<string>, pass: Option<string>,
                             matches: (string, string) -> bool, k: nat)
    requires k < |admins| && admins[k].username == Safe(user)
    requires forall j :: 0 <= j < |admins| && admins[j].username == Safe(user) ==> j == k
    requires !matches(PasswordOf(pass), admins[k].passwordHash)
    ensures !LoginSucceeds(admins, user, pass, matches)
  {
  }

  /** The right password of an existing admin is accepted: with user names UNIQUE
    * (src/db.js:63), the lookup finds that admin and the check passes against its hash. */
  lemma RightPasswordAccepted(admins: seq<Admin>, user: Option<string>, pass: Option<string>,
                              matches: (string, string) -> bool, k: nat)
    requires k < |admins| && admins[k].username == Safe(user)
    requires forall j :: 0 <= j < |admins| && admins[j].username == Safe(user) ==> j == k
    requires matches(PasswordOf(pass), admins[k].passwordHash)
    ensures LoginSucceeds(admins, user, pass, matches)
  {
    assert AdminNamed(admins, Safe(user)).Some?;
  }

  predicate UniqueUsernames(admins: seq<Admin>) {
    forall i, j :: 0 <= i < j < |admins| ==> admins[i].username != admins[j].username
  }

  /** With user names UNIQUE, `requireAuth` accepts exactly when some admin has the trimmed user
    * name and the password matches that admin's hash. */
  lemma LoginIff(admins: seq<Admin>, user: Option<string>, pass: Option<string>,
                 matches: (string, string) -> bool)
    requires UniqueUsernames(admins)
    ensures LoginSucceeds(admins, user, pass, matches)
        <==> exists k :: 0 <= k < |admins| && admins[k].username == Safe(user)
                       && matches(PasswordOf(pass), admins[k].passwordHash)
  {
    if k :| 0 <= k < |admins| && admins[k].username == Safe(user) {
      if matches(PasswordOf(pass), admins[k].passwordHash) {
        RightPasswordAccepted(admins, user, pass, matches, k);
      } else {
        WrongPasswordRefused(admins, user, pass, matches, k);
      }
    } else {
      UnknownUserRefused(admins, user, pass, matches);
    }
  }

  /** Spaces around the user name do not matter: logging in as "  admin " is logging in as
    * "admin". */
  lemma LoginIgnoresPadding(admins: seq<Admin>, user: string, pass: Option<string>,
                            matches: (string, string) -> bool)
    ensures LoginSucceeds(admins, Some(user), pass, matches)
         == LoginSucceeds(admins, Some(Trim(user)), pass, matches)
  {
    SafeIdempotent(Some(user));
  }

  /** `requireAuth`: on success the session records the trimmed user name; on failure nothing
    * changes. */
  method RequireAuth(s: Session, admins: seq<Admin>, user: Option<string>, pass: Option<string>,
                     matches: (string, string) -> bool) returns (ok: bool)
    modifies s
    ensures ok == LoginSucceeds(admins, user, pass, matches)
    ensures ok ==> s.admin == Some(Safe(user))
    ensures !ok ==> s.admin == old(s.admin)
    ensures s.cart == old(s.cart)
  {
    var u := Safe(user);
    var p := PasswordOf(pass);
    var found := AdminNamed(admins, u);
    if found.None? {
      return false;
    }
    ok := matches(p, admins[found.value].passwordHash);
    if !ok {
      return false;
    }
    s.admin := Some(u);
  }

  /** After a successful login the session is authenticated, unless some admin's user name is
    * itself empty. */
  lemma LoginAuthenticates(admins: seq<Admin>, user: Option<string>, pass: Option<string>,
                           matches: (string, string) -> bool)
    requires LoginSucceeds(admins, user, pass, matches)
    ensures IsAuthed(Some(Safe(user))) || exists k :: 0 <= k < |admins| && admins[k].username == ""
  {
    var k := AdminNamed(admins, Safe(user)).value;
    assert admins[k].username == Safe(user);
  }

  /** `/admin/logout`: `session.admin = null`, after which the session is not authenticated. */
  method Logout(s: Session)
    modifies s
    ensures s.admin == None && !IsAuthed(s.admin)
    ensures s.cart == old(s.cart)
  {
    s.admin := None;
  }
}
