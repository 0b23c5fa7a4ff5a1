/**
 * The authentication plugin class (auth.php): the field locks and the trimmed
 * list of synchronised profile fields set up by the constructor, the password
 * check used when the companion logs in, and the fixed password policy.
 */
module AuthPlugin {
  import opened Moodle

  /** The plugin's auth type, stored in the auth column of companion rows. */
  const AUTH: string := "companion"

  /** Profile fields whose lock the plugin forces: they are derived from the main account. */
  const LOCKED_FIELDS: seq<string> := ["firstname", "lastname", "email"]

  /** `fields` without the forced-locked ones, in their original order. */
  function Unlocked(fields: seq<string>): seq<string>
  {
    if fields == [] then []
    else (if fields[0] in LOCKED_FIELDS then [] else [fields[0]]) + Unlocked(fields[1..])
  }

  /** A field survives exactly when it was present and is not forced locked. */
  lemma {:induction false} UnlockedMembers(fields: seq<string>, x: string)
    ensures x in Unlocked(fields) <==> x in fields && x !in LOCKED_FIELDS
  {
    if fields != [] {
      UnlockedMembers(fields[1..], x);
      assert fields == [fields[0]] + fields[1..];
    }
  }

  /** Filtering distributes over concatenation: the kept fields keep their relative order. */
  lemma {:induction false} UnlockedAppend(a: seq<string>, b: seq<string>)
    ensures Unlocked(a + b) == Unlocked(a) + Unlocked(b)
  {
    if a == [] {
      assert a + b == b;
    } else {
      assert (a + b)[0] == a[0] && (a + b)[1..] == a[1..] + b;
      UnlockedAppend(a[1..], b);
    }
  }

  /** A list without locked fields is left as it is. */
  lemma {:induction false} UnlockedKeepsOthers(fields: seq<string>)
    requires forall i :: 0 <= i < |fields| ==> fields[i] !in LOCKED_FIELDS
    ensures Unlocked(fields) == fields
  {
    if fields != [] {
      UnlockedKeepsOthers(fields[1..]);
    }
  }

  /** The configuration after the constructor forces the three lock settings. */
  function LockedConfig(stored: map<string, string>): (c: map<string, string>)
    ensures c.Keys == stored.Keys + {"field_lock_firstname", "field_lock_lastname", "field_lock_email"}
    ensures c["field_lock_firstname"] == "locked" && c["field_lock_lastname"] == "locked" && c["field_lock_email"] == "locked"
    ensures forall k :: k in stored && k !in {"field_lock_firstname", "field_lock_lastname", "field_lock_email"} ==> c[k] == stored[k]
  {
    stored["field_lock_firstname" := "locked"]["field_lock_lastname" := "locked"]["field_lock_email" := "locked"]
  }

  /**
   * user_login(username, password): the row with this username on the local
   * host must exist and the password must verify against its stored hash.
   */
  function UserLogin(users: seq<User>, localhost: nat, username: string, password: string): (ok: bool)
    ensures UserOnHost(users, username, localhost).None? ==> !ok
    ensures ok ==> exists u :: u in users && u.username == username && u.mnethostid == localhost && ValidatePassword(u, password)
  {
    match UserOnHost(users, username, localhost)
    case None => false
    case Some(user) => ValidatePassword(user, password)
  }

  /** In a well-formed user table the login check accepts exactly the password whose hash that user's row stores. */
  lemma UserLoginExact(users: seq<User>, localhost: nat, row: User, password: string)
    requires UsersWellFormed(users) && row in users && row.mnethostid == localhost
    ensures UserLogin(users, localhost, row.username, password) <==> ValidatePassword(row, password)
  {
    var found := UserOnHost(users, row.username, localhost);
    SameLoginSameRow(users, found.value, row);
  }

  class AuthPluginCompanion {
    var authtype: string
    var config: map<string, string>
    var userfields: seq<string>

    /**
     * `stored` is the plugin's stored configuration (get_config) and
     * `inherited` the userfields list the base class declares.
     */
    constructor (stored: map<string, string>, inherited: seq<string>)
      ensures authtype == AUTH
      ensures config == LockedConfig(stored)
      ensures userfields == Unlocked(inherited)
    {
      authtype := AUTH;
      config := LockedConfig(stored);
      var kept: seq<string> := [];
      var i := 0;
      while i < |inherited|
        invariant 0 <= i <= |inherited|
        invariant kept == Unlocked(inherited[..i])
      {
        var field := inherited[i];
        UnlockedAppend(inherited[..i], [field]);
        assert inherited[..i + 1] == inherited[..i] + [field];
        if field !in LOCKED_FIELDS {
          kept := kept + [field];
        }
        i := i + 1;
      }
      assert inherited[..i] == inherited;
      userfields := kept;
    }

    /** Passwords of companion accounts are never updated through the plugin. */
    function UserUpdatePassword(user: User, newpassword: string): (ok: bool)
      ensures !ok
    {
      false
    }

    /** Local passwords are kept (the host must not discard them). */
    function PreventLocalPasswords(): (prevent: bool)
      ensures !prevent
    {
      false
    }

    function IsInternal(): (internal: bool)
      ensures internal
    {
      true
    }

    function CanChangePassword(): (can: bool)
      ensures !can
    {
      false
    }

    function CanResetPassword(): (can: bool)
      ensures !can
    {
      false
    }

    function CanBeManuallySet(): (can: bool)
      ensures can
    {
      true
    }
  }
}
