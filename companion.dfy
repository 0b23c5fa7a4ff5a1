/**
 * The companion account of a main user (classes/companion.php): its username is
 * derived from the main user's id, the row is created on demand, and the two
 * accounts are tied together by the preferences auth_companion_user (on the
 * main user) and auth_companion_mainuser (on the companion).
 */
module Companions {
  import opened Wrappers
  import opened Moodle
  import opened AuthPlugin

  const PREF_USER: string := "auth_companion_user"
  const PREF_MAINUSER: string := "auth_companion_mainuser"
  const PREF_COURSE: string := "auth_companion_course"
  const EMAIL_DOMAIN: string := "@companion.invalid"

  /** The companion's username: the main user's id followed by the plugin's username suffix. */
  function CompanionUsername(mainid: nat, suffix: string): (name: string)
    ensures NatToString(mainid) <= name && |name| == |NatToString(mainid)| + |suffix|
    ensures name[|NatToString(mainid)|..] == suffix
  {
    NatToString(mainid) + suffix
  }

  /** Distinct main users never share a companion username. */
  lemma CompanionUsernameInjective(a: nat, b: nat, suffix: string)
    requires CompanionUsername(a, suffix) == CompanionUsername(b, suffix)
    ensures a == b
  {
    var name := CompanionUsername(a, suffix);
    assert NatToString(a) == name[..|name| - |suffix|] == NatToString(b);
    NatToStringInjective(a, b);
  }

  predicate IsCompanionRowOf(u: User, name: string)
  {
    u.username == name && u.auth == AUTH
  }

  /** get_record('user', ['username' => name, 'auth' => 'companion']) */
  function FindCompanionRow(users: seq<User>, name: string): (r: Option<User>)
    ensures r.Some? ==> r.value in users && IsCompanionRowOf(r.value, name)
    ensures r.None? <==> forall u :: u in users ==> !IsCompanionRowOf(u, name)
  {
    FirstUser(users, (u: User) => IsCompanionRowOf(u, name))
  }

  /** The name and email fields a record gets when it is not reused from the table. */
  function WithDerivedFields(record: User, main: User, namesuffix: string): (c: User)
    ensures c.firstname == main.firstname
    ensures c.lastname == main.lastname + " " + namesuffix
    ensures c.email == record.username + EMAIL_DOMAIN
    ensures c.(firstname := record.firstname, lastname := record.lastname, email := record.email) == record
  {
    record.(firstname := main.firstname, lastname := main.lastname + " " + namesuffix, email := record.username + EMAIL_DOMAIN)
  }

  /**
   * get_companion_record(user, forcecreate), where `password` is what
   * generate_password() returns. An existing row is returned as stored; a row
   * is created only on `forcecreate`; otherwise the record is built in memory
   * (id 0, no auth) and nothing is written.
   */
  function CompanionRecord(db: Db, user: User, forcecreate: bool, password: string, cfg: Config): (r: Run<User>)
    ensures var name := CompanionUsername(user.id, cfg.usernameSuffix);
      var existing := FindCompanionRow(db.users, name);
      && (existing.Some? ==> r == Run(db, Ok(existing.value)))
      && (!forcecreate ==> r.db == db && r.result.Ok?)
      && (r.result.Ok? ==> r.result.value.username == name)
      && (existing.None? && !forcecreate ==>
            r.result.value.id == 0 && r.result.value == WithDerivedFields(r.result.value, user, cfg.namesuffix))
      && (existing.None? && forcecreate ==>
            && (r.result.Err? <==> UserOnHost(db.users, name, cfg.localhost).Some?)
            && (r.result.Err? ==> r.db == db)
            && (r.result.Ok? ==>
                  var c := r.result.value;
                  && r.db == db.(users := db.users + [c.(firstname := "", lastname := "", email := "")])
                  && c == WithDerivedFields(c, user, cfg.namesuffix)
                  && c.auth == AUTH && c.id == NextUserId(db.users)
                  && c.mnethostid == cfg.localhost && !c.deleted && ValidatePassword(c, password)))
  {
    var name := CompanionUsername(user.id, cfg.usernameSuffix);
    match FindCompanionRow(db.users, name)
    case Some(row) => Run(db, Ok(row))
    case None =>
      if !forcecreate then
        Run(db, Ok(WithDerivedFields(User(0, name, password, "", "", "", "", 0, false), user, cfg.namesuffix)))
      else
        match CreateUserRecord(db, name, password, AUTH, cfg.localhost)
        case Err(e) => Run(db, Err(e))
        case Ok(created) => Run(created.0, Ok(WithDerivedFields(created.1, user, cfg.namesuffix)))
  }

  /** A second forcecreate for the same main user finds the row the first one made: no duplicate. */
  lemma CompanionRecordReused(db: Db, user: User, pw1: string, pw2: string, cfg: Config)
    requires CompanionRecord(db, user, true, pw1, cfg).result.Ok?
    ensures var first := CompanionRecord(db, user, true, pw1, cfg);
      var second := CompanionRecord(first.db, user, true, pw2, cfg);
      && second.db == first.db
      && second.result.Ok? && second.result.value.id == first.result.value.id
  {
    var name := CompanionUsername(user.id, cfg.usernameSuffix);
    var first := CompanionRecord(db, user, true, pw1, cfg);
    if FindCompanionRow(db.users, name).None? {
      var row := first.result.value.(firstname := "", lastname := "", email := "");
      FirstUserAppend(db.users, [row], (u: User) => IsCompanionRowOf(u, name));
      assert FindCompanionRow(first.db.users, name) == Some(row);
    }
  }

  /** The result of new companion($user, $forcecreate): its two fields. */
  datatype Made = Made(mainuserid: nat, companion: User)

  /**
   * new companion(user, forcecreate): the main user is the given one or the
   * session's; with `forcecreate` the main user's auth_companion_user
   * preference is set to the companion's id.
   */
  function Construct(st: State, cfg: Config, user: Option<User>, forcecreate: bool, password: string): (r: Run<Made>)
    ensures var main := if user.None? then CurrentUser(st) else user.value;
      var rec := CompanionRecord(st.db, main, forcecreate, password, cfg);
      && (r.result.Ok? <==> rec.result.Ok?)
      && (r.result.Ok? ==> r.result.value == Made(main.id, rec.result.value))
      && (user.None? && r.result.Ok? ==> r.result.value.mainuserid == st.userid)
      && (!forcecreate ==> r.db == st.db)
      && (forcecreate && r.result.Ok? ==>
            r.db == rec.db.(prefs := SetPref(rec.db.prefs, main.id, PREF_USER, rec.result.value.id)))
      && (r.result.Err? ==> r.db == rec.db)
  {
    var main := if user.None? then CurrentUser(st) else user.value;
    var rec := CompanionRecord(st.db, main, forcecreate, password, cfg);
    match rec.result
    case Err(e) => Run(rec.db, Err(e))
    case Ok(c) =>
      var db' := if forcecreate then rec.db.(prefs := SetPref(rec.db.prefs, main.id, PREF_USER, c.id)) else rec.db;
      Run(db', Ok(Made(main.id, c)))
  }

  /** Repeating new companion($user, true) for the same main user keeps the companion and its link. */
  lemma ConstructIdempotent(st: State, cfg: Config, main: User, pw1: string, pw2: string)
    requires Construct(st, cfg, Some(main), true, pw1).result.Ok?
    ensures var first := Construct(st, cfg, Some(main), true, pw1);
      var second := Construct(State(first.db, st.userid), cfg, Some(main), true, pw2);
      && second.result.Ok?
      && second.result.value.companion.id == first.result.value.companion.id
      && second.db == first.db
  {
    var name := CompanionUsername(main.id, cfg.usernameSuffix);
    var first := Construct(st, cfg, Some(main), true, pw1);
    var rec := CompanionRecord(st.db, main, true, pw1, cfg);
    CompanionRecordReused(st.db, main, pw1, pw2, cfg);
    var found := FindCompanionRow(rec.db.users, name);
    assert found.Some? && found.value.id == rec.result.value.id;
    assert first.db.users == rec.db.users;
    assert FindCompanionRow(first.db.users, name) == found;
  }

  /**
   * authenticate_user_login followed by complete_user_login, as far as the
   * plugin relies on them: the active row with this username on the local host
   * must belong to the enabled companion auth and pass its user_login check.
   * Other auth plugins are not modelled and reject.
   */
  function AuthenticateUserLogin(db: Db, cfg: Config, username: string, password: string): (r: Option<User>)
    ensures r.Some? ==> && r.value in db.users && r.value.username == username
                        && r.value.mnethostid == cfg.localhost && !r.value.deleted && r.value.auth == AUTH
  {
    match FirstUser(db.users, (u: User) => u.username == username && u.mnethostid == cfg.localhost && !u.deleted)
    case None => None
    case Some(u) =>
      if u.auth == AUTH && cfg.authEnabled && UserLogin(db.users, cfg.localhost, username, password) then Some(u) else None
  }

  /**
   * companion::login with generate_password() = `password`: nothing when the
   * auth is disabled; otherwise the hashed password (and with it the whole
   * in-memory record) is written, then the companion is logged in, or the
   * session is logged out and an exception thrown.
   */
  function LoginSpec(st: State, cfg: Config, companion: User, password: string): (r: Step<Option<User>>)
    ensures !cfg.authEnabled ==> r == Step(st, Ok(None))
    ensures cfg.authEnabled && companion.id == 0 ==> r.state == st && r.result.Err?
    ensures cfg.authEnabled && companion.id != 0 ==>
      r.state.db == st.db.(users := UpdateRecord(st.db.users, companion.(password := HashPassword(password))))
    ensures r.result.Err? ==> r.state.userid == 0 || r.state == st
    ensures r.result.Ok? && r.result.value.Some? ==>
      && r.state.userid == r.result.value.value.id
      && r.result.value.value.username == companion.username && r.result.value.value.auth == AUTH
  {
    if !cfg.authEnabled then Step(st, Ok(None))
    else
      var c := companion.(password := HashPassword(password));
      if c.id == 0 then Step(st, Err("missingkeyfield"))
      else
        var db' := st.db.(users := UpdateRecord(st.db.users, c));
        match AuthenticateUserLogin(db', cfg, c.username, password)
        case None => Step(State(db', 0), Err("could not login companion user"))
        case Some(u) => Step(State(db', u.id), Ok(Some(u)))
  }

  /** The stored row a record was read from: same id and login, still on the local host and active. */
  ghost predicate StoredActive(db: Db, cfg: Config, c: User)
  {
    && c.id != 0 && c.auth == AUTH && c.mnethostid == cfg.localhost && !c.deleted
    && exists row :: row in db.users && row.id == c.id && row.username == c.username && row.mnethostid == c.mnethostid
  }

  /** Logging in an active companion cannot fail: the password just stored is the one presented. */
  lemma LoginSucceeds(st: State, cfg: Config, c: User, password: string)
    requires WellFormed(st.db) && cfg.authEnabled && StoredActive(st.db, cfg, c)
    ensures var r := LoginSpec(st, cfg, c, password);
      && r.result == Ok(Some(c.(password := HashPassword(password))))
      && r.state.userid == c.id
      && WellFormed(r.state.db)
      && c.(password := HashPassword(password)) in r.state.db.users
  {
    var c' := c.(password := HashPassword(password));
    var row :| row in st.db.users && row.id == c.id && row.username == c.username && row.mnethostid == c.mnethostid;
    var users' := UpdateRecord(st.db.users, c');
    UpdateKeepsWellFormed(st.db.users, row, c');
    var db' := st.db.(users := users');
    var found := FirstUser(users', (u: User) => u.username == c'.username && u.mnethostid == cfg.localhost && !u.deleted);
    SameLoginSameRow(users', found.value, c');
    UserLoginExact(users', cfg.localhost, c', password);
  }

  /**
   * relogin_main: nothing when the auth is disabled; otherwise the main user
   * becomes the session's user. The host reloads the user through
   * get_complete_user_data on the local mnet host, which finds no row for a
   * missing, remote or deleted main user; complete_user_login then fails, and
   * the session stays as it was.
   */
  function ReloginSpec(st: State, cfg: Config, mainuserid: nat): (r: Step<Option<User>>)
    ensures r.state.db == st.db
    ensures !cfg.authEnabled ==> r == Step(st, Ok(None))
    ensures cfg.authEnabled && r.result.Ok? ==>
      && r.state.userid == mainuserid && r.result.value.Some?
      && var main := r.result.value.value;
         main in st.db.users && main.id == mainuserid && main.mnethostid == cfg.localhost && !main.deleted
    ensures cfg.authEnabled ==>
      (r.result.Ok? <==> exists u :: u in st.db.users && u.id == mainuserid && u.mnethostid == cfg.localhost && !u.deleted)
    ensures r.result.Err? ==> r.state == st
  {
    if !cfg.authEnabled then Step(st, Ok(None))
    else
      match LocalActiveUser(st.db.users, mainuserid, cfg.localhost)
      case None => Step(st, Err("could not log in main user"))
      case Some(main) => Step(State(st.db, main.id), Ok(Some(main)))
  }

  /** The position of the first manual enrolment instance. */
  function FirstManual(instances: seq<EnrolInstance>): (k: Option<nat>)
    ensures k.Some? ==> k.value < |instances| && instances[k.value].enrol == "manual"
    ensures k.Some? ==> forall j :: 0 <= j < k.value ==> instances[j].enrol != "manual"
    ensures k.None? <==> forall j :: 0 <= j < |instances| ==> instances[j].enrol != "manual"
  {
    if instances == [] then None
    else if instances[0].enrol == "manual" then Some(0)
    else match FirstManual(instances[1..])
      case None => None
      case Some(k) => Some(k + 1)
  }

  /** enrol_get_instances(courseid, false): all instances of an existing course. */
  function Instances(db: Db, courseid: nat): seq<EnrolInstance>
  {
    if courseid in db.courses then db.courses[courseid].instances else []
  }

  /**
   * companion::enrol(course): enrols the companion through the first manual
   * instance, with no role and no time bounds; throws when there is none.
   */
  function EnrolSpec(db: Db, courseid: nat, companionid: nat): (r: Run<()>)
    ensures FirstManual(Instances(db, courseid)).None? ==> r == Run(db, Err("No manual instance found!"))
    ensures r.result.Ok? ==>
      var instance := Instances(db, courseid)[FirstManual(Instances(db, courseid)).value];
      r.db == db.(enrolments := db.enrolments[(instance.id, companionid) := Period(0, 0)])
    ensures r.db.users == db.users && r.db.prefs == db.prefs && r.db.accounts == db.accounts
  {
    var instances := Instances(db, courseid);
    match FirstManual(instances)
    case None => Run(db, Err("No manual instance found!"))
    case Some(k) => Run(db.(enrolments := db.enrolments[(instances[k].id, companionid) := Period(0, 0)]), Ok(()))
  }

  /** The loop of companion::enrol: the first instance whose enrol plugin is 'manual'. */
  method FindManualInstance(instances: seq<EnrolInstance>) returns (found: bool, k: nat)
    ensures found <==> FirstManual(instances).Some?
    ensures found ==> k == FirstManual(instances).value
  {
    found, k := false, 0;
    while k < |instances|
      invariant 0 <= k <= |instances|
      invariant forall j :: 0 <= j < k ==> instances[j].enrol != "manual"
    {
      if instances[k].enrol == "manual" {
        found := true;
        break;
      }
      k := k + 1;
    }
    if found {
      ManualIsFirst(instances, k);
    }
  }

  lemma {:induction false} ManualIsFirst(instances: seq<EnrolInstance>, k: nat)
    requires k < |instances| && instances[k].enrol == "manual"
    requires forall j :: 0 <= j < k ==> instances[j].enrol != "manual"
    ensures FirstManual(instances) == Some(k)
  {
    if k > 0 {
      ManualIsFirst(instances[1..], k - 1);
    }
  }

  /** PHP's loose comparison of a preference value (null when missing) with an id. */
  predicate LooseEquals(value: Option<nat>, id: nat)
  {
    match value
    case None => id == 0
    case Some(v) => v == id
  }

  /**
   * get_instance_by_companion(companionuserid): the main user is named by the
   * companion's auth_companion_mainuser preference; that user's
   * auth_companion_user preference must name the companion back ('wrong
   * userid' otherwise) and the main user's row must exist. A missing
   * mainuser preference makes the host read the session user's preference
   * instead, and the row lookup then fails. Returns the main user's id.
   */
  function InstanceByCompanion(st: State, companionuserid: nat): (r: Result<nat>)
    ensures r.Ok? <==>
      && GetPref(st.db.prefs, companionuserid, PREF_MAINUSER).Some?
      && var main := GetPref(st.db.prefs, companionuserid, PREF_MAINUSER).value;
         LooseEquals(GetPref(st.db.prefs, main, PREF_USER), companionuserid) && UserById(st.db.users, main).Some?
    ensures r.Ok? ==> r.value == GetPref(st.db.prefs, companionuserid, PREF_MAINUSER).value
    ensures GetPref(st.db.prefs, companionuserid, PREF_MAINUSER).Some? &&
      !LooseEquals(GetPref(st.db.prefs, GetPref(st.db.prefs, companionuserid, PREF_MAINUSER).value, PREF_USER), companionuserid)
      ==> r == Err("wrong userid")
  {
    var mainuserid := GetPref(st.db.prefs, companionuserid, PREF_MAINUSER);
    var companionid := GetPref(st.db.prefs, if mainuserid.Some? then mainuserid.value else st.userid, PREF_USER);
    if !LooseEquals(companionid, companionuserid) then Err("wrong userid")
    else if mainuserid.None? then Err("invalidrecord")
    else match UserById(st.db.users, mainuserid.value)
      case None => Err("invalidrecord")
      case Some(main) => Ok(main.id)
  }

  class Companion {
    var companion: User
    var mainuserid: nat

    constructor Init(mainuserid: nat, companion: User)
      ensures this.mainuserid == mainuserid && this.companion == companion
    {
      this.mainuserid := mainuserid;
      this.companion := companion;
    }

    /** get_companion_record; `password` is what generate_password() returns. */
    static method GetCompanionRecord(site: Site, cfg: Config, user: User, forcecreate: bool, password: string)
      returns (r: Result<User>)
      modifies site`db
      ensures Run(site.db, r) == CompanionRecord(old(site.db), user, forcecreate, password, cfg)
    {
      var name := CompanionUsername(user.id, cfg.usernameSuffix);
      var existing := FindCompanionRow(site.db.users, name);
      if existing.Some? {
        return Ok(existing.value);
      }
      var companion := User(0, name, password, "", "", "", "", 0, false);
      if forcecreate {
        var created := CreateUserRecord(site.db, companion.username, companion.password, AUTH, cfg.localhost);
        if created.Err? {
          return Err(created.message);
        }
        site.db := created.value.0;
        // Every column of the new row overwrites the in-memory record.
        companion := created.value.1;
      }
      companion := companion.(firstname := user.firstname);
      companion := companion.(lastname := user.lastname + " " + cfg.namesuffix);
      companion := companion.(email := companion.username + EMAIL_DOMAIN);
      return Ok(companion);
    }

    /** new companion(user, forcecreate); `user` None stands for the session's user. */
    static method New(site: Site, cfg: Config, user: Option<User>, forcecreate: bool, password: string)
      returns (r: Result<Companion>)
      modifies site`db
      ensures var spec := Construct(old(site.CurrentState()), cfg, user, forcecreate, password);
        && site.db == spec.db
        && (r.Ok? <==> spec.result.Ok?)
        && (r.Err? ==> spec.result == Err(r.message))
        && (r.Ok? ==> fresh(r.value) && r.value.mainuserid == spec.result.value.mainuserid
                      && r.value.companion == spec.result.value.companion)
    {
      var main := if user.None? then CurrentUser(site.CurrentState()) else user.value;
      var record := GetCompanionRecord(site, cfg, main, forcecreate, password);
      if record.Err? {
        return Err(record.message);
      }
      var c := new Companion.Init(main.id, record.value);
      if forcecreate {
        site.db := site.db.(prefs := SetPref(site.db.prefs, main.id, PREF_USER, c.GetId()));
      }
      return Ok(c);
    }

    function GetId(): (id: nat)
      reads this
      ensures id == companion.id
    {
      companion.id
    }

    /** companion::login; `password` is what generate_password() returns. */
    method Login(site: Site, cfg: Config, password: string) returns (r: Result<Option<User>>)
      modifies this`companion, site`db, site`userid
      ensures var spec := LoginSpec(old(site.CurrentState()), cfg, old(companion), password);
        site.CurrentState() == spec.state && r == spec.result
      ensures companion == if cfg.authEnabled then old(companion).(password := HashPassword(password)) else old(companion)
      ensures mainuserid == old(mainuserid)
    {
      if !cfg.authEnabled {
        return Ok(None);
      }
      companion := companion.(password := HashPassword(password));
      if companion.id == 0 {
        return Err("missingkeyfield");
      }
      site.db := site.db.(users := UpdateRecord(site.db.users, companion));
      var user := AuthenticateUserLogin(site.db, cfg, companion.username, password);
      if user.None? {
        site.userid := 0;
        return Err("could not login companion user");
      }
      site.userid := user.value.id;
      return Ok(user);
    }

    /** companion::relogin_main */
    method ReloginMain(site: Site, cfg: Config) returns (r: Result<Option<User>>)
      modifies site`userid
      ensures var spec := ReloginSpec(old(site.CurrentState()), cfg, mainuserid);
        site.CurrentState() == spec.state && r == spec.result
    {
      if !cfg.authEnabled {
        return Ok(None);
      }
      var main := LocalActiveUser(site.db.users, mainuserid, cfg.localhost);
      if main.None? {
        return Err("could not log in main user");
      }
      site.userid := main.value.id;
      return Ok(main);
    }

    /** companion::enrol(course) */
    method Enrol(site: Site, courseid: nat) returns (r: Result<()>)
      modifies site`db
      ensures Run(site.db, r) == EnrolSpec(old(site.db), courseid, companion.id)
    {
      var instances := Instances(site.db, courseid);
      var found, k := FindManualInstance(instances);
      if !found {
        return Err("No manual instance found!");
      }
      site.db := site.db.(enrolments := site.db.enrolments[(instances[k].id, companion.id) := Period(0, 0)]);
      return Ok(());
    }

    /** get_instance_by_companion; `password` feeds the record built for the main user. */
    static method GetInstanceByCompanion(site: Site, cfg: Config, companionuserid: nat, password: string)
      returns (r: Result<Companion>)
      modifies site`db
      ensures site.db == old(site.db)
      ensures var spec := InstanceByCompanion(site.CurrentState(), companionuserid);
        && (r.Ok? <==> spec.Ok?)
        && (r.Err? ==> spec == Err(r.message))
        && (r.Ok? ==> fresh(r.value) && r.value.mainuserid == spec.value)
    {
      var mainuserid := GetPref(site.db.prefs, companionuserid, PREF_MAINUSER);
      var companionid := GetPref(site.db.prefs, if mainuserid.Some? then mainuserid.value else site.userid, PREF_USER);
      if !LooseEquals(companionid, companionuserid) {
        return Err("wrong userid");
      }
      if mainuserid.None? {
        return Err("invalidrecord");
      }
      var mainuser := UserById(site.db.users, mainuserid.value);
      if mainuser.None? {
        return Err("invalidrecord");
      }
      var made := New(site, cfg, Some(mainuser.value), false, password);
      match made {
        case Ok(c) => return Ok(c);
        case Err(e) => assert false; return Err(e);
      }
    }
  }
}
