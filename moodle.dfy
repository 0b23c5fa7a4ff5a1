/**
 * The part of the Moodle host that the companion plugin reads and writes:
 * the user table, user preferences, the companion link table, courses with
 * their enrolment instances, user enrolments, and the current session.
 * The host's own routines (create_user_record, update_record, delete_user,
 * get/set_user_preference) are modelled here as functions on the database
 * value, with the contracts the plugin relies on.
 */
module Moodle {
  import opened Wrappers

  const CONTEXT_USER: nat := 30
  const CONTEXT_COURSE: nat := 50
  /** Id of the front-page course ($SITE->id). */
  const SITEID: nat := 1

  /** A row of the user table. An id of 0 stands for a record not stored yet. */
  datatype User = User(
    id: nat,
    username: string,
    password: string,
    auth: string,
    firstname: string,
    lastname: string,
    email: string,
    mnethostid: nat,
    deleted: bool)

  datatype PrefKey = PrefKey(userid: nat, name: string)

  /** A row of the auth_companion_accounts table. */
  datatype Link = Link(mainuserid: nat, companionid: nat, timecreated: int)

  datatype EnrolInstance = EnrolInstance(id: nat, enrol: string)

  /** A course; `instances` are its enrolment instances in sort order. */
  datatype Course = Course(id: nat, instances: seq<EnrolInstance>)

  datatype Period = Period(timestart: int, timeend: int)

  datatype Db = Db(
    users: seq<User>,
    prefs: map<PrefKey, nat>,
    accounts: seq<Link>,
    courses: map<nat, Course>,
    enrolments: map<(nat, nat), Period>)  // (enrolment instance id, user id)

  /** The database together with the id of the session's user ($USER->id, 0 when logged out). */
  datatype State = State(db: Db, userid: nat)

  /** The state an operation leaves behind, and what it returned or threw. */
  datatype Step<T> = Step(state: State, result: Result<T>)

  /** The database an operation leaves behind, and what it returned or threw. */
  datatype Run<T> = Run(db: Db, result: Result<T>)

  /** The plugin's settings and the host settings it reads. */
  datatype Config = Config(
    namesuffix: string,        // setting auth_companion/namesuffix
    anonymousname: string,     // setting auth_companion/anonymousname
    forcelogin: bool,          // setting auth_companion/forcelogin
    authEnabled: bool,         // is_enabled_auth('companion')
    usernameSuffix: string,    // the plugin constant USERNAME_SUFFIX
    localhost: nat,            // $CFG->mnet_localhost_id
    siteadmins: set<nat>)      // $CFG->siteadmins

  /** The host's global state: database, session user and the custom user menu setting. */
  class Site {
    var db: Db
    var userid: nat
    var customusermenuitems: string

    constructor (db: Db, userid: nat, customusermenuitems: string)
      ensures this.db == db && this.userid == userid
      ensures this.customusermenuitems == customusermenuitems
    {
      this.db := db;
      this.userid := userid;
      this.customusermenuitems := customusermenuitems;
    }

    function CurrentState(): State
      reads this
    {
      State(db, userid)
    }
  }

  // ---------------------------------------------------------------------
  // Decimal rendering of ids (PHP's int-to-string conversion)

  function DigitChar(d: nat): (c: char)
    requires d < 10
    ensures '0' <= c <= '9'
  {
    "0123456789"[d]
  }

  lemma DigitCharInjective(a: nat, b: nat)
    requires a < 10 && b < 10 && DigitChar(a) == DigitChar(b)
    ensures a == b
  {
  }

  function NatToString(n: nat): (s: string)
    ensures |s| >= 1
    ensures n >= 10 ==> |s| >= 2
    ensures forall i :: 0 <= i < |s| ==> '0' <= s[i] <= '9'
  {
    if n < 10 then [DigitChar(n)] else NatToString(n / 10) + [DigitChar(n % 10)]
  }

  /** Distinct numbers render as distinct strings. */
  lemma {:induction false} NatToStringInjective(a: nat, b: nat)
    requires NatToString(a) == NatToString(b)
    ensures a == b
  {
    var s := NatToString(a);
    if a < 10 && b < 10 {
      DigitCharInjective(a, b);
    } else if a >= 10 && b >= 10 {
      assert NatToString(a / 10) == s[..|s| - 1] == NatToString(b / 10);
      NatToStringInjective(a / 10, b / 10);
      DigitCharInjective(a % 10, b % 10);
    }
  }

  // ---------------------------------------------------------------------
  // Reading the user table

  /** The first row that `matches`: what get_record returns on a table scan. */
  function FirstUser(users: seq<User>, matches: User -> bool): (r: Option<User>)
    ensures r.Some? ==> r.value in users && matches(r.value)
    ensures r.None? <==> forall u :: u in users ==> !matches(u)
  {
    if users == [] then None
    else if matches(users[0]) then Some(users[0])
    else FirstUser(users[1..], matches)
  }

  /** Searching a concatenation: the first part's match wins. */
  lemma {:induction false} FirstUserAppend(a: seq<User>, b: seq<User>, matches: User -> bool)
    ensures FirstUser(a + b, matches) == if FirstUser(a, matches).Some? then FirstUser(a, matches) else FirstUser(b, matches)
  {
    if a != [] {
      assert (a + b)[1..] == a[1..] + b;
      FirstUserAppend(a[1..], b, matches);
    } else {
      assert a + b == b;
    }
  }

  /** get_record('user', ['id' => id]) */
  function UserById(users: seq<User>, id: nat): (r: Option<User>)
    ensures r.Some? ==> r.value in users && r.value.id == id
    ensures r.None? <==> forall u :: u in users ==> u.id != id
  {
    FirstUser(users, (u: User) => u.id == id)
  }

  /**
   * get_complete_user_data('id', id, localhost): the row with this id, if it
   * lives on the local mnet host and is not deleted.
   */
  function LocalActiveUser(users: seq<User>, id: nat, localhost: nat): (r: Option<User>)
    ensures r.Some? ==> r.value in users && r.value.id == id && r.value.mnethostid == localhost && !r.value.deleted
    ensures r.None? <==> forall u :: u in users ==> !(u.id == id && u.mnethostid == localhost && !u.deleted)
  {
    FirstUser(users, (u: User) => u.id == id && u.mnethostid == localhost && !u.deleted)
  }

  /** The row with this username on this mnet host, deleted or not. */
  function UserOnHost(users: seq<User>, username: string, host: nat): (r: Option<User>)
    ensures r.Some? ==> r.value in users && r.value.username == username && r.value.mnethostid == host
    ensures r.None? <==> forall u :: u in users ==> !(u.username == username && u.mnethostid == host)
  {
    FirstUser(users, (u: User) => u.username == username && u.mnethostid == host)
  }

  /** Ids are positive and unique, and (username, mnethostid) is unique, as the host's indexes demand. */
  ghost predicate UsersWellFormed(users: seq<User>)
  {
    && (forall u :: u in users ==> u.id > 0)
    && (forall i, j :: 0 <= i < j < |users| ==> users[i].id != users[j].id)
    && (forall i, j :: 0 <= i < j < |users| ==>
          users[i].username != users[j].username || users[i].mnethostid != users[j].mnethostid)
  }

  /** A main user has at most one row in the link table, and so has a companion. */
  ghost predicate AccountsWellFormed(accounts: seq<Link>)
  {
    forall i, j :: 0 <= i < j < |accounts| ==>
      accounts[i].mainuserid != accounts[j].mainuserid && accounts[i].companionid != accounts[j].companionid
  }

  ghost predicate WellFormed(db: Db)
  {
    UsersWellFormed(db.users) && AccountsWellFormed(db.accounts)
  }

  lemma SameIdSameRow(users: seq<User>, a: User, b: User)
    requires UsersWellFormed(users) && a in users && b in users && a.id == b.id
    ensures a == b
  {
    var i :| 0 <= i < |users| && users[i] == a;
    var j :| 0 <= j < |users| && users[j] == b;
    assert i == j;
  }

  lemma SameLoginSameRow(users: seq<User>, a: User, b: User)
    requires UsersWellFormed(users) && a in users && b in users
    requires a.username == b.username && a.mnethostid == b.mnethostid
    ensures a == b
  {
    var i :| 0 <= i < |users| && users[i] == a;
    var j :| 0 <= j < |users| && users[j] == b;
    assert i == j;
  }

  /** The current session's user ($USER), or an empty record when nobody is logged in. */
  function CurrentUser(st: State): (u: User)
    ensures st.userid != 0 && UserById(st.db.users, st.userid).Some? ==> u in st.db.users && u.id == st.userid
  {
    match UserById(st.db.users, st.userid)
    case Some(u) => u
    case None => User(st.userid, "", "", "", "", "", "", 0, false)
  }

  // ---------------------------------------------------------------------
  // Writing the user table

  function MaxId(users: seq<User>): (m: nat)
    ensures forall u :: u in users ==> u.id <= m
  {
    if users == [] then 0 else
      var rest := MaxId(users[1..]);
      assert forall u :: u in users ==> u == users[0] || u in users[1..];
      if users[0].id > rest then users[0].id else rest
  }

  /** The id the database's sequence hands out next. */
  function NextUserId(users: seq<User>): (id: nat)
    ensures id > 0
    ensures forall u :: u in users ==> u.id != id
  {
    MaxId(users) + 1
  }

  /** How the host stores a password (password_hash); its one property used here is that verification accepts exactly the hashed password. */
  function HashPassword(password: string): string
  {
    "$hash$" + password
  }

  /** validate_internal_user_password */
  predicate ValidatePassword(user: User, password: string)
  {
    user.password == HashPassword(password)
  }

  /**
   * create_user_record(username, password, auth): inserts a fresh active row on
   * the local host with the hashed password and returns it; the insert fails on
   * the unique (username, mnethostid) index.
   */
  function CreateUserRecord(db: Db, username: string, password: string, auth: string, host: nat): (r: Result<(Db, User)>)
    ensures r.Err? <==> UserOnHost(db.users, username, host).Some?
    ensures r.Ok? ==> var (db', row) := r.value;
      && db' == db.(users := db.users + [row])
      && row.id == NextUserId(db.users)
      && row.username == username && row.auth == auth && row.mnethostid == host
      && !row.deleted && ValidatePassword(row, password)
  {
    if UserOnHost(db.users, username, host).Some? then Err("dmlwriteexception")
    else
      var row := User(NextUserId(db.users), username, HashPassword(password), auth, "", "", "", host, false);
      Ok((db.(users := db.users + [row]), row))
  }

  lemma CreateKeepsWellFormed(db: Db, username: string, password: string, auth: string, host: nat)
    requires WellFormed(db)
    requires CreateUserRecord(db, username, password, auth, host).Ok?
    ensures WellFormed(CreateUserRecord(db, username, password, auth, host).value.0)
  {
    var (db', row) := CreateUserRecord(db, username, password, auth, host).value;
    var users' := db'.users;
    assert users' == db.users + [row];
    forall i, j | 0 <= i < j < |users'|
      ensures users'[i].id != users'[j].id
      ensures users'[i].username != users'[j].username || users'[i].mnethostid != users'[j].mnethostid
    {
      if j == |db.users| {
        assert users'[i] in db.users;
      }
    }
  }

  /** update_record('user', rec): every row with rec's id becomes rec. */
  function UpdateRecord(users: seq<User>, rec: User): (r: seq<User>)
    ensures |r| == |users|
    ensures forall i :: 0 <= i < |users| ==> r[i] == (if users[i].id == rec.id then rec else users[i])
  {
    seq(|users|, i requires 0 <= i < |users| => if users[i].id == rec.id then rec else users[i])
  }

  /** Rewriting a row while keeping its id and login keeps the table well formed. */
  lemma UpdateKeepsWellFormed(users: seq<User>, old_: User, rec: User)
    requires UsersWellFormed(users) && old_ in users
    requires rec.id == old_.id && rec.username == old_.username && rec.mnethostid == old_.mnethostid
    ensures UsersWellFormed(UpdateRecord(users, rec))
    ensures rec in UpdateRecord(users, rec)
  {
    var r := UpdateRecord(users, rec);
    forall i | 0 <= i < |users| && users[i].id == rec.id
      ensures users[i] == old_
    {
      SameIdSameRow(users, users[i], old_);
    }
    forall u | u in r ensures u.id > 0 {
      var i :| 0 <= i < |r| && r[i] == u;
    }
    var k :| 0 <= k < |users| && users[k] == old_;
    assert r[k] == rec;
  }

  /**
   * What the host's delete_user writes into the row it deletes: a new
   * username and, in place of the email, a hash of the old username. The
   * hash is not modelled, so the caller supplies both values.
   */
  datatype Tombstone = Tombstone(username: string, email: string)

  /**
   * What the host's delete_user does to a row the plugin deletes: it marks the
   * row deleted, overwrites its username and email with the tombstone's, and
   * removes the user's preferences and enrolments.
   */
  function HostDeleteUser(db: Db, id: nat, tombstone: Tombstone): (db': Db)
    ensures |db'.users| == |db.users|
    ensures forall i :: 0 <= i < |db.users| ==>
      db'.users[i] == (if db.users[i].id == id
                       then db.users[i].(deleted := true, username := tombstone.username, email := tombstone.email)
                       else db.users[i])
    ensures forall k :: k in db'.prefs <==> k in db.prefs && k.userid != id
    ensures forall k :: k in db'.prefs ==> db'.prefs[k] == db.prefs[k]
    ensures forall e :: e in db'.enrolments <==> e in db.enrolments && e.1 != id
    ensures forall e :: e in db'.enrolments ==> db'.enrolments[e] == db.enrolments[e]
    ensures db'.accounts == db.accounts && db'.courses == db.courses
  {
    db.(
      users := seq(|db.users|, i requires 0 <= i < |db.users| =>
        if db.users[i].id == id
        then db.users[i].(deleted := true, username := tombstone.username, email := tombstone.email)
        else db.users[i]),
      prefs := map k | k in db.prefs && k.userid != id :: db.prefs[k],
      enrolments := map e | e in db.enrolments && e.1 != id :: db.enrolments[e])
  }

  // ---------------------------------------------------------------------
  // The auth_companion_accounts link table

  /** get_record('auth_companion_accounts', ['mainuserid' => mainid]) */
  function LinkByMain(accounts: seq<Link>, mainid: nat): (r: Option<Link>)
    ensures r.Some? ==> r.value in accounts && r.value.mainuserid == mainid
    ensures r.None? <==> forall l :: l in accounts ==> l.mainuserid != mainid
  {
    if accounts == [] then None
    else if accounts[0].mainuserid == mainid then Some(accounts[0])
    else LinkByMain(accounts[1..], mainid)
  }

  lemma SameMainSameRow(accounts: seq<Link>, a: Link, b: Link)
    requires AccountsWellFormed(accounts) && a in accounts && b in accounts && a.mainuserid == b.mainuserid
    ensures a == b
  {
    var i :| 0 <= i < |accounts| && accounts[i] == a;
    var j :| 0 <= j < |accounts| && accounts[j] == b;
    assert i == j;
  }

  lemma SameCompanionSameRow(accounts: seq<Link>, a: Link, b: Link)
    requires AccountsWellFormed(accounts) && a in accounts && b in accounts && a.companionid == b.companionid
    ensures a == b
  {
    var i :| 0 <= i < |accounts| && accounts[i] == a;
    var j :| 0 <= j < |accounts| && accounts[j] == b;
    assert i == j;
  }

  /** The link table without the rows of one companion. */
  function RemoveLinksOf(accounts: seq<Link>, companionid: nat): (r: seq<Link>)
    ensures forall l :: l in r <==> l in accounts && l.companionid != companionid
    ensures |r| <= |accounts|
    ensures (exists l :: l in accounts && l.companionid == companionid) ==> |r| < |accounts|
  {
    if accounts == [] then []
    else
      var rest := RemoveLinksOf(accounts[1..], companionid);
      assert forall l :: l in accounts <==> l == accounts[0] || l in accounts[1..];
      if accounts[0].companionid == companionid then rest else [accounts[0]] + rest
  }

  /** Removing rows keeps their relative order, so main users stay unique. */
  lemma {:induction false} RemoveLinksKeepsWellFormed(accounts: seq<Link>, companionid: nat)
    requires AccountsWellFormed(accounts)
    ensures AccountsWellFormed(RemoveLinksOf(accounts, companionid))
  {
    if accounts != [] {
      var rest := RemoveLinksOf(accounts[1..], companionid);
      assert AccountsWellFormed(accounts[1..]) by {
        forall i, j | 0 <= i < j < |accounts[1..]|
          ensures accounts[1..][i].mainuserid != accounts[1..][j].mainuserid
          ensures accounts[1..][i].companionid != accounts[1..][j].companionid
        {
          assert accounts[1..][i] == accounts[i + 1] && accounts[1..][j] == accounts[j + 1];
        }
      }
      RemoveLinksKeepsWellFormed(accounts[1..], companionid);
      if accounts[0].companionid != companionid {
        var r := [accounts[0]] + rest;
        forall i, j | 0 <= i < j < |r|
          ensures r[i].mainuserid != r[j].mainuserid && r[i].companionid != r[j].companionid
        {
          if i == 0 {
            assert r[j] in rest;
            var k :| 1 <= k < |accounts| && accounts[k] == r[j];
          }
        }
      }
    }
  }

  // ---------------------------------------------------------------------
  // User preferences

  /** get_user_preferences(name, null, userid) */
  function GetPref(prefs: map<PrefKey, nat>, userid: nat, name: string): (r: Option<nat>)
    ensures r.Some? <==> PrefKey(userid, name) in prefs
    ensures r.Some? ==> r.value == prefs[PrefKey(userid, name)]
  {
    if PrefKey(userid, name) in prefs then Some(prefs[PrefKey(userid, name)]) else None
  }

  /** set_user_preference(name, value, user): not stored for a user without id (not logged in). */
  function SetPref(prefs: map<PrefKey, nat>, userid: nat, name: string, value: nat): (r: map<PrefKey, nat>)
    ensures userid != 0 ==> GetPref(r, userid, name) == Some(value)
    ensures userid == 0 ==> r == prefs
    ensures forall k :: k != PrefKey(userid, name) ==> (k in r <==> k in prefs)
    ensures forall k :: k != PrefKey(userid, name) && k in r ==> r[k] == prefs[k]
  {
    if userid == 0 then prefs else prefs[PrefKey(userid, name) := value]
  }

  /** PHP's empty() on a string: "" and "0" are empty. */
  predicate PhpEmpty(s: string)
  {
    s == "" || s == "0"
  }
}
