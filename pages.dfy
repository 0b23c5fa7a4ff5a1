/**
 * The two pages that switch accounts: enter.php (main user to companion) and
 * leave.php (companion back to the main user). Each page is a function from
 * the session and the confirmation form's outcome to the new session and the
 * response, and a method on the host that performs it through the Companion
 * class. Thrown exceptions are Err results; what the page already wrote
 * before throwing stays written.
 */
module Pages {
  import opened Wrappers
  import opened Moodle
  import opened AuthPlugin
  import opened Companions
  import opened Util

  /** The confirmation form: shown, cancelled, or submitted with its deletedata checkbox. */
  datatype FormAction = Displayed | Cancelled | Submitted(deletedata: bool)

  /** What the page sends back: a redirect (with or without a success notification) or the confirmation page. */
  datatype Response = Redirect(url: string, notified: bool) | ConfirmPage

  const LOGIN_URL: string := "/login/index.php"
  const SITE_URL: string := "/"

  function CourseUrl(courseid: nat): string
  {
    "/course/view.php?id=" + NatToString(courseid)
  }

  // ---------------------------------------------------------------------
  // enter.php

  /**
   * The confirm branch of enter.php up to the enrolment: new companion($USER,
   * true), login as the companion, then auth_companion_course and
   * auth_companion_mainuser (the previous session user) written on whoever is
   * the session user now. Returns the companion record. `pwCreate` and
   * `pwLogin` are what generate_password() returns for the new record and for
   * the login.
   */
  function SwitchToCompanion(st: State, cfg: Config, courseid: nat, pwCreate: string, pwLogin: string)
    : (r: Step<User>)
    ensures r.state.db.courses == st.db.courses && r.state.db.enrolments == st.db.enrolments
    ensures r.result.Ok? && r.state.userid != 0 ==>
      && GetPref(r.state.db.prefs, r.state.userid, PREF_COURSE) == Some(courseid)
      && GetPref(r.state.db.prefs, r.state.userid, PREF_MAINUSER) == Some(st.userid)
    ensures r.result.Ok? ==>
      Construct(st, cfg, None, true, pwCreate).result.Ok? &&
      r.result.value == Construct(st, cfg, None, true, pwCreate).result.value.companion
    ensures Construct(st, cfg, None, true, pwCreate).result.Err? ==> r.result.Err? && r.state.userid == st.userid
  {
    var olduserid := st.userid;
    var made := Construct(st, cfg, None, true, pwCreate);
    match made.result
    case Err(e) => Step(State(made.db, st.userid), Err(e))
    case Ok(m) =>
      var login := LoginSpec(State(made.db, st.userid), cfg, m.companion, pwLogin);
      match login.result
      case Err(e) => Step(login.state, Err(e))
      case Ok(_) =>
        var st1 := login.state;
        var prefs := SetPref(st1.db.prefs, st1.userid, PREF_COURSE, courseid);
        var prefs' := SetPref(prefs, st1.userid, PREF_MAINUSER, olduserid);
        Step(State(st1.db.(prefs := prefs'), st1.userid), Ok(m.companion))
  }

  /**
   * enter.php for course `courseid`. `canCompanion` is the answer of
   * require_capability('auth/companion:allowcompanion'). The enrolment comes
   * after the switch and nothing is rolled back when it throws.
   */
  function EnterSpec(st: State, cfg: Config, courseid: nat, form: FormAction, canCompanion: bool,
                     pwCreate: string, pwLogin: string): (r: Step<Response>)
    ensures courseid !in st.db.courses ==> r == Step(st, Err("course not found"))
    ensures courseid in st.db.courses && !canCompanion ==> r == Step(st, Err("nopermissions"))
    ensures !form.Submitted? ==> r.state == st
    ensures courseid in st.db.courses && canCompanion && form == Cancelled ==>
      r.result == Ok(Redirect(CourseUrl(courseid), false))
    ensures courseid in st.db.courses && canCompanion && form == Displayed ==> r.result == Ok(ConfirmPage)
    ensures r.result.Ok? && form.Submitted? ==> r.result.value == Redirect(CourseUrl(courseid), true)
    ensures r.state.db.courses == st.db.courses
    ensures courseid in st.db.courses && canCompanion && form.Submitted? ==>
      var sw := SwitchToCompanion(st, cfg, courseid, pwCreate, pwLogin);
      && r.state.userid == sw.state.userid
      && (sw.result.Err? ==> r == Step(sw.state, Err(sw.result.message)))
      && (sw.result.Ok? && FirstManual(Instances(st.db, courseid)).None? ==>
            r == Step(sw.state, Err("No manual instance found!")))
      && (sw.result.Ok? && FirstManual(Instances(st.db, courseid)).Some? ==>
            r.result.Ok? && r.state.db == EnrolSpec(sw.state.db, courseid, sw.result.value.id).db)
  {
    if courseid !in st.db.courses then Step(st, Err("course not found"))
    else if !canCompanion then Step(st, Err("nopermissions"))
    else match form
      case Cancelled => Step(st, Ok(Redirect(CourseUrl(courseid), false)))
      case Displayed => Step(st, Ok(ConfirmPage))
      case Submitted(_) =>
        var switched := SwitchToCompanion(st, cfg, courseid, pwCreate, pwLogin);
        match switched.result
        case Err(e) => Step(switched.state, Err(e))
        case Ok(companion) =>
          var enrolled := EnrolSpec(switched.state.db, courseid, companion.id);
          match enrolled.result
          case Err(e) => Step(State(enrolled.db, switched.state.userid), Err(e))
          case Ok(_) => Step(State(enrolled.db, switched.state.userid), Ok(Redirect(CourseUrl(courseid), true)))
  }

  // ---------------------------------------------------------------------
  // leave.php

  /** The redirect target: the backurl parameter, or the site root when it is empty. */
  function BackUrl(backurl: string): (url: string)
    ensures PhpEmpty(backurl) ==> url == SITE_URL
    ensures !PhpEmpty(backurl) ==> url == backurl
  {
    if PhpEmpty(backurl) then SITE_URL else backurl
  }

  /**
   * leave.php: the session user is taken as the companion. Without forcelogin
   * the main user is found through get_instance_by_companion (which throws
   * on a broken link) and logged in again; with forcelogin the session is
   * logged out. The companion's data is deleted when the form asks for it.
   */
  function LeaveSpec(st: State, cfg: Config, backurl: string, form: FormAction, tombstone: Tombstone): (r: Step<Response>)
    ensures st.userid == 0 ==> r == Step(st, Ok(Redirect(LOGIN_URL, false)))
    ensures !form.Submitted? ==> r.state == st
    ensures st.userid != 0 && form == Cancelled ==> r.result == Ok(Redirect(BackUrl(backurl), false))
    ensures st.userid != 0 && form == Displayed ==> r.result == Ok(ConfirmPage)
    ensures st.userid != 0 && form.Submitted? && cfg.forcelogin ==>
      && r.state.userid == 0
      && r.result == Ok(Redirect(BackUrl(backurl), false))
      && r.state.db == (if form.deletedata then DeleteCompanionUser(st.db, st.userid, true, tombstone) else st.db)
    ensures st.userid != 0 && form.Submitted? && !cfg.forcelogin && InstanceByCompanion(st, st.userid).Err? ==>
      r == Step(st, Err(InstanceByCompanion(st, st.userid).message))
    ensures st.userid != 0 && form.Submitted? && !cfg.forcelogin && InstanceByCompanion(st, st.userid).Ok? ==>
      var rel := ReloginSpec(st, cfg, InstanceByCompanion(st, st.userid).value);
      && r.state.userid == rel.state.userid
      && (rel.result.Ok? ==> r.result == Ok(Redirect(BackUrl(backurl), rel.result.value.Some?)))
      && (rel.result.Err? ==> r == Step(st, Err(rel.result.message)))
  {
    if st.userid == 0 then Step(st, Ok(Redirect(LOGIN_URL, false)))
    else
      var url := BackUrl(backurl);
      var companionuserid := st.userid;
      match form
      case Cancelled => Step(st, Ok(Redirect(url, false)))
      case Displayed => Step(st, Ok(ConfirmPage))
      case Submitted(deletedata) =>
        var switched: Step<Option<User>> :=
          if !cfg.forcelogin then
            match InstanceByCompanion(st, companionuserid)
            case Err(e) => Step(st, Err(e))
            case Ok(mainuserid) => ReloginSpec(st, cfg, mainuserid)
          else Step(State(st.db, 0), Ok(None));
        match switched.result
        case Err(e) => Step(switched.state, Err(e))
        case Ok(user) =>
          var db' := if deletedata then DeleteCompanionUser(switched.state.db, companionuserid, true, tombstone)
                     else switched.state.db;
          Step(State(db', switched.state.userid), Ok(Redirect(url, user.Some?)))
  }

  /** enter.php performed on the host through the Companion class. */
  method Enter(site: Site, cfg: Config, courseid: nat, form: FormAction, canCompanion: bool,
               pwCreate: string, pwLogin: string) returns (r: Result<Response>)
    modifies site`db, site`userid
    ensures var spec := EnterSpec(old(site.CurrentState()), cfg, courseid, form, canCompanion, pwCreate, pwLogin);
      site.CurrentState() == spec.state && r == spec.result
  {
    if courseid !in site.db.courses {
      return Err("course not found");
    }
    if !canCompanion {
      return Err("nopermissions");
    }
    if form == Cancelled {
      return Ok(Redirect(CourseUrl(courseid), false));
    }
    if form == Displayed {
      return Ok(ConfirmPage);
    }
    var olduserid := site.userid;
    var made := Companion.New(site, cfg, None, true, pwCreate);
    if made.Err? {
      return Err(made.message);
    }
    var companion := made.value;
    var user := companion.Login(site, cfg, pwLogin);
    if user.Err? {
      return Err(user.message);
    }
    // Now the session belongs to the companion (or still to the main user when the plugin is disabled).
    site.db := site.db.(prefs := SetPref(site.db.prefs, site.userid, PREF_COURSE, courseid));
    site.db := site.db.(prefs := SetPref(site.db.prefs, site.userid, PREF_MAINUSER, olduserid));
    var enrolled := companion.Enrol(site, courseid);
    if enrolled.Err? {
      return Err(enrolled.message);
    }
    return Ok(Redirect(CourseUrl(courseid), true));
  }

  /** leave.php performed on the host; `password` feeds the record get_instance_by_companion builds. */
  method Leave(site: Site, cfg: Config, backurl: string, form: FormAction, tombstone: Tombstone, password: string)
    returns (r: Result<Response>)
    modifies site`db, site`userid
    ensures var spec := LeaveSpec(old(site.CurrentState()), cfg, backurl, form, tombstone);
      site.CurrentState() == spec.state && r == spec.result
  {
    if site.userid == 0 {
      return Ok(Redirect(LOGIN_URL, false));
    }
    var url := BackUrl(backurl);
    var companionuserid := site.userid;
    if form == Cancelled {
      return Ok(Redirect(url, false));
    }
    if form == Displayed {
      return Ok(ConfirmPage);
    }
    var user: Option<User> := None;
    if !cfg.forcelogin {
      var companion := Companion.GetInstanceByCompanion(site, cfg, companionuserid, password);
      if companion.Err? {
        return Err(companion.message);
      }
      var relogged := companion.value.ReloginMain(site, cfg);
      if relogged.Err? {
        return Err(relogged.message);
      }
      user := relogged.value;
    } else {
      site.userid := 0;
    }
    if form.deletedata {
      site.db := DeleteCompanionUser(site.db, companionuserid, true, tombstone);
    }
    return Ok(Redirect(url, user.Some?));
  }

  // ---------------------------------------------------------------------
  // Properties of the two pages together

  /**
   * The preconditions under which the switch succeeds: the plugin is enabled,
   * the table is well formed, the session user is an active local main user,
   * and no row has that user's companion name yet.
   */
  ghost predicate CanSwitch(st: State, cfg: Config, main: User)
  {
    && WellFormed(st.db) && cfg.authEnabled
    && main in st.db.users && main.id == st.userid && st.userid != 0
    && main.mnethostid == cfg.localhost && !main.deleted
    && (forall u :: u in st.db.users ==> u.username != CompanionUsername(main.id, cfg.usernameSuffix))
  }

  /** ... and entering then succeeds when the course has a manual enrolment instance. */
  ghost predicate CanEnter(st: State, cfg: Config, courseid: nat, main: User)
  {
    CanSwitch(st, cfg, main) && courseid in st.db.courses && FirstManual(Instances(st.db, courseid)).Some?
  }

  /** new companion($USER, true) on enter.php, for a main user whose companion name is free: a new active row, linked from the main user. */
  lemma EnterCreates(st: State, cfg: Config, main: User, pwCreate: string)
    requires CanSwitch(st, cfg, main)
    ensures var made := Construct(st, cfg, None, true, pwCreate);
      && made.result.Ok? && made.result.value.mainuserid == main.id
      && var c := made.result.value.companion;
      && c.id == NextUserId(st.db.users) && c.auth == AUTH && c.mnethostid == cfg.localhost && !c.deleted
      && c.username == CompanionUsername(main.id, cfg.usernameSuffix)
      && made.db == st.db.(users := st.db.users + [c.(firstname := "", lastname := "", email := "")],
                           prefs := SetPref(st.db.prefs, main.id, PREF_USER, c.id))
      && WellFormed(made.db)
  {
    var name := CompanionUsername(main.id, cfg.usernameSuffix);
    SameIdSameRow(st.db.users, UserById(st.db.users, st.userid).value, main);
    assert CurrentUser(st) == main;
    assert FindCompanionRow(st.db.users, name).None?;
    assert UserOnHost(st.db.users, name, cfg.localhost).None?;
    CreateKeepsWellFormed(st.db, name, pwCreate, AUTH, cfg.localhost);
  }

  /**
   * The switch from an active local main user: the session moves to a newly
   * created, active companion; the two accounts' preferences point at each
   * other and the course preference is written.
   */
  lemma SwitchLogsIn(st: State, cfg: Config, courseid: nat, main: User, pwCreate: string, pwLogin: string)
    requires CanSwitch(st, cfg, main)
    ensures var switched := SwitchToCompanion(st, cfg, courseid, pwCreate, pwLogin);
      var cid := switched.state.userid;
      && switched.result.Ok? && switched.result.value.id == cid
      && cid != main.id && cid != 0 && cid !in ActiveCompanions(st.db.users)
      && cid in ActiveCompanions(switched.state.db.users)
      && WellFormed(switched.state.db)
      && main in switched.state.db.users
      && GetPref(switched.state.db.prefs, cid, PREF_MAINUSER) == Some(main.id)
      && GetPref(switched.state.db.prefs, cid, PREF_COURSE) == Some(courseid)
      && GetPref(switched.state.db.prefs, main.id, PREF_USER) == Some(cid)
  {
    EnterCreates(st, cfg, main, pwCreate);
    var made := Construct(st, cfg, None, true, pwCreate);
    var c := made.result.value.companion;
    var row := c.(firstname := "", lastname := "", email := "");
    assert row in made.db.users;
    var st0 := State(made.db, st.userid);
    LoginSucceeds(st0, cfg, c, pwLogin);
    var login := LoginSpec(st0, cfg, c, pwLogin);
    var st1 := login.state;
    var switched := SwitchToCompanion(st, cfg, courseid, pwCreate, pwLogin);
    assert switched.state.db.users == st1.db.users && switched.state.userid == c.id;
    var c' := c.(password := HashPassword(pwLogin));
    assert c' in st1.db.users && IsActiveCompanion(c');
    assert main in st1.db.users by {
      var i :| 0 <= i < |st.db.users| && st.db.users[i] == main;
      assert made.db.users[i] == main;
      assert st1.db.users[i] == main;
    }
  }

  /**
   * Entering from a logged-in main user switches the session to a newly
   * created, active companion that is linked both ways and enrolled through
   * the course's first manual instance.
   */
  lemma EnterSwitches(st: State, cfg: Config, courseid: nat, main: User, pwCreate: string, pwLogin: string)
    requires CanEnter(st, cfg, courseid, main)
    ensures var entered := EnterSpec(st, cfg, courseid, Submitted(false), true, pwCreate, pwLogin);
      var cid := entered.state.userid;
      && entered.result.Ok?
      && cid != main.id && cid != 0 && cid !in ActiveCompanions(st.db.users)
      && cid in ActiveCompanions(entered.state.db.users)
      && WellFormed(entered.state.db)
      && main in entered.state.db.users
      && GetPref(entered.state.db.prefs, cid, PREF_MAINUSER) == Some(main.id)
      && GetPref(entered.state.db.prefs, main.id, PREF_USER) == Some(cid)
      && (Instances(st.db, courseid)[FirstManual(Instances(st.db, courseid)).value].id, cid) in entered.state.db.enrolments
  {
    SwitchLogsIn(st, cfg, courseid, main, pwCreate, pwLogin);
    var switched := SwitchToCompanion(st, cfg, courseid, pwCreate, pwLogin);
    assert Instances(switched.state.db, courseid) == Instances(st.db, courseid);
  }

  /**
   * Entering a course without a manual enrolment instance throws after the
   * switch, and nothing is rolled back: the session stays with the new
   * companion and the preferences stay written.
   */
  lemma EnterWithoutManualInstance(st: State, cfg: Config, courseid: nat, main: User, pwCreate: string, pwLogin: string)
    requires CanSwitch(st, cfg, main) && courseid in st.db.courses && FirstManual(Instances(st.db, courseid)).None?
    ensures var entered := EnterSpec(st, cfg, courseid, Submitted(false), true, pwCreate, pwLogin);
      var cid := entered.state.userid;
      && entered.result == Err("No manual instance found!")
      && cid != main.id && cid != 0 && cid in ActiveCompanions(entered.state.db.users)
      && GetPref(entered.state.db.prefs, cid, PREF_MAINUSER) == Some(main.id)
      && GetPref(entered.state.db.prefs, cid, PREF_COURSE) == Some(courseid)
      && GetPref(entered.state.db.prefs, main.id, PREF_USER) == Some(cid)
  {
    SwitchLogsIn(st, cfg, courseid, main, pwCreate, pwLogin);
  }

  /**
   * Leaving (without forcelogin) from a companion whose link is intact, to an
   * active local main user, logs the main user in again.
   */
  lemma LeaveReturns(st: State, cfg: Config, main: User, backurl: string, tombstone: Tombstone)
    requires cfg.authEnabled && !cfg.forcelogin && st.userid != 0 && main in st.db.users
    requires main.mnethostid == cfg.localhost && !main.deleted
    requires UsersWellFormed(st.db.users)
    requires GetPref(st.db.prefs, st.userid, PREF_MAINUSER) == Some(main.id)
    requires GetPref(st.db.prefs, main.id, PREF_USER) == Some(st.userid)
    ensures InstanceByCompanion(st, st.userid) == Ok(main.id)
    ensures var left := LeaveSpec(st, cfg, backurl, Submitted(false), tombstone);
      left.state == State(st.db, main.id) && left.result == Ok(Redirect(BackUrl(backurl), true))
  {
    var found := UserById(st.db.users, main.id);
    SameIdSameRow(st.db.users, found.value, main);
    var local := LocalActiveUser(st.db.users, main.id, cfg.localhost);
    SameIdSameRow(st.db.users, local.value, main);
  }

  /** Entering and then leaving again returns the session to the main user. */
  lemma EnterThenLeave(st: State, cfg: Config, courseid: nat, main: User,
                       pwCreate: string, pwLogin: string, backurl: string, tombstone: Tombstone)
    requires CanEnter(st, cfg, courseid, main) && !cfg.forcelogin
    ensures var entered := EnterSpec(st, cfg, courseid, Submitted(false), true, pwCreate, pwLogin);
      && entered.result.Ok?
      && InstanceByCompanion(entered.state, entered.state.userid) == Ok(main.id)
      && var left := LeaveSpec(entered.state, cfg, backurl, Submitted(false), tombstone);
         && left.state.userid == main.id && left.state.db == entered.state.db
         && left.result == Ok(Redirect(BackUrl(backurl), true))
  {
    EnterSwitches(st, cfg, courseid, main, pwCreate, pwLogin);
    var entered := EnterSpec(st, cfg, courseid, Submitted(false), true, pwCreate, pwLogin);
    LeaveReturns(entered.state, cfg, main, backurl, tombstone);
  }

  /**
   * Leaving with "delete data" ticked, from an active companion whose link
   * back to its main user is intact and whose main user can log in again (or
   * under forcelogin): the page succeeds,
   * the companion leaves the active companions, its link rows are gone, and
   * it can no longer be resolved to a main user.
   */
  lemma LeaveDeletesCompanion(st: State, cfg: Config, backurl: string, tombstone: Tombstone)
    requires UsersWellFormed(st.db.users) && st.userid in ActiveCompanions(st.db.users)
    requires cfg.forcelogin ||
      (InstanceByCompanion(st, st.userid).Ok? && ReloginSpec(st, cfg, InstanceByCompanion(st, st.userid).value).result.Ok?)
    ensures var left := LeaveSpec(st, cfg, backurl, Submitted(true), tombstone);
      && left.result.Ok?
      && (cfg.forcelogin ==> left.state.userid == 0)
      && ActiveCompanions(left.state.db.users) == ActiveCompanions(st.db.users) - {st.userid}
      && (forall l :: l in left.state.db.accounts ==> l.companionid != st.userid)
      && InstanceByCompanion(left.state, st.userid).Err?
  {
    var left := LeaveSpec(st, cfg, backurl, Submitted(true), tombstone);
    assert left.state.db == DeleteCompanionUser(st.db, st.userid, true, tombstone);
    DeleteCompanionUserContract(st.db, st.userid, tombstone, left.state.userid);
  }
}
