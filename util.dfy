/**
 * The plugin's static helpers (classes/util.php): the custom user menu entry,
 * the companion and course-page predicates, and the anonymising deletion of a
 * user. Also the companion deletion that the privacy provider, the event
 * observer and leave.php call, which that file does not define.
 */
module Util {
  import opened Wrappers
  import opened Moodle
  import opened AuthPlugin
  import opened Companions

  /** What set_user_menu reads from $PAGE. */
  datatype Page = Page(pagetype: string, contextlevel: nat, courseid: nat)

  const SWITCH_BACK: string := "Switch back"
  const SWITCH_TO_COMPANION: string := "Switch to companion"
  const MENU_SEPARATOR: string := "\n###\n"
  const DEFAULT_ANONYMOUS: string := "anonymous"
  const ANONYMOUS_DOMAIN: string := "@auth-companion.invalid"

  /** is_companion(user): the argument is ignored; the session user's auth decides. */
  function IsCompanion(st: State, user: Option<User>): (yes: bool)
    ensures yes <==> CurrentUser(st).auth == AUTH
  {
    CurrentUser(st).auth == AUTH
  }

  /** Whatever is passed, is_companion answers for the session's user. */
  lemma IsCompanionIgnoresArgument(st: State, a: Option<User>, b: Option<User>)
    ensures IsCompanion(st, a) == IsCompanion(st, b)
  {
  }

  /** page_is_course: a course-level context that is not the front page. */
  function PageIsCourse(page: Page): (yes: bool)
    ensures yes <==> page.contextlevel == CONTEXT_COURSE && page.courseid != SITEID
  {
    if page.contextlevel != CONTEXT_COURSE then false
    else if page.courseid == SITEID then false
    else true
  }

  /** preg_match('#^admin.*#', pagetype) */
  predicate IsAdminPage(page: Page)
  {
    "admin" <= page.pagetype
  }

  /** One custom menu entry: a separator line, then "name|url". */
  function MenuItem(name: string, url: string): (item: string)
    ensures MENU_SEPARATOR <= item
    ensures item[|MENU_SEPARATOR|..] == name + "|" + url
  {
    MENU_SEPARATOR + name + "|" + url
  }

  /** The leave page, with the page the user is on as backurl. */
  function LeaveUrl(backurl: string): string
  {
    "/auth/companion/leave.php?backurl=" + backurl
  }

  /** The enter page for a course. */
  function EnterUrl(courseid: nat): string
  {
    "/auth/companion/enter.php?courseid=" + NatToString(courseid)
  }

  /**
   * The menu setting after set_user_menu. `fullme` is the URL of the current
   * page and `canCompanion` the verdict of has_capability for
   * auth/companion:allowcompanion in the page's context.
   */
  function UserMenu(items: string, page: Page, isCompanion: bool, canCompanion: bool, fullme: string): (r: string)
    ensures items <= r
    ensures IsAdminPage(page) ==> r == items
    ensures !IsAdminPage(page) && isCompanion ==> r == items + MenuItem(SWITCH_BACK, LeaveUrl(fullme))
    ensures !IsAdminPage(page) && !isCompanion ==>
      r == if canCompanion && PageIsCourse(page) then items + MenuItem(SWITCH_TO_COMPANION, EnterUrl(page.courseid)) else items
  {
    if IsAdminPage(page) then items
    else if isCompanion then items + MenuItem(SWITCH_BACK, LeaveUrl(fullme))
    else if !canCompanion then items
    else if !PageIsCourse(page) then items
    else items + MenuItem(SWITCH_TO_COMPANION, EnterUrl(page.courseid))
  }

  /** A companion outside admin pages gets the same single entry whatever the capability and page type. */
  lemma SwitchBackEverywhere(items: string, p1: Page, p2: Page, can1: bool, can2: bool, fullme: string)
    requires !IsAdminPage(p1) && !IsAdminPage(p2)
    ensures UserMenu(items, p1, true, can1, fullme) == UserMenu(items, p2, true, can2, fullme)
    ensures |UserMenu(items, p1, true, can1, fullme)| > |items|
  {
  }

  /** set_user_menu: appends at most one entry to $CFG->customusermenuitems. */
  method SetUserMenu(site: Site, page: Page, canCompanion: bool, fullme: string)
    modifies site`customusermenuitems
    ensures site.customusermenuitems ==
      UserMenu(old(site.customusermenuitems), page, IsCompanion(site.CurrentState(), None), canCompanion, fullme)
  {
    if IsAdminPage(page) {
      return;
    }
    if IsCompanion(site.CurrentState(), None) {
      site.customusermenuitems := site.customusermenuitems + MenuItem(SWITCH_BACK, LeaveUrl(fullme));
      return;
    }
    if !canCompanion {
      return;
    }
    if !PageIsCourse(page) {
      return;
    }
    site.customusermenuitems := site.customusermenuitems + MenuItem(SWITCH_TO_COMPANION, EnterUrl(page.courseid));
  }

  /** The configured placeholder name, or 'anonymous' when the setting is empty. */
  function AnonymousName(cfg: Config): (name: string)
    ensures PhpEmpty(cfg.anonymousname) ==> name == DEFAULT_ANONYMOUS
    ensures !PhpEmpty(cfg.anonymousname) ==> name == cfg.anonymousname
  {
    if PhpEmpty(cfg.anonymousname) then DEFAULT_ANONYMOUS else cfg.anonymousname
  }

  /** A row with its names and email replaced by the placeholder. */
  function Anonymised(user: User, name: string): (a: User)
    ensures a.firstname == name && a.lastname == name
    ensures a.email == name + "." + name + ANONYMOUS_DOMAIN
    ensures a.(firstname := user.firstname, lastname := user.lastname, email := user.email) == user
  {
    user.(firstname := name, lastname := name, email := name + "." + name + ANONYMOUS_DOMAIN)
  }

  /**
   * util::delete_user(userid). `hostDeletes` is the verdict of the host's
   * delete_user and `tombstone` the username and email it gives the deleted row. A site
   * admin is refused before anything is written; the row must exist on the
   * local host; the anonymised row is written before the host deletes it, and
   * stays written when the host refuses.
   */
  function DeleteUserSpec(db: Db, cfg: Config, userid: nat, hostDeletes: bool, tombstone: Tombstone): (r: Run<()>)
    ensures userid in cfg.siteadmins ==> r == Run(db, Err("useradminodelete"))
    ensures var row := FirstUser(db.users, (u: User) => u.id == userid && u.mnethostid == cfg.localhost);
      && (userid !in cfg.siteadmins && row.None? ==> r == Run(db, Err("invalidrecord")))
      && (userid !in cfg.siteadmins && row.Some? ==>
            var anonymised := db.(users := UpdateRecord(db.users, Anonymised(row.value, AnonymousName(cfg))));
            r == if hostDeletes then Run(HostDeleteUser(anonymised, userid, tombstone), Ok(()))
                 else Run(anonymised, Err("could not delete user")))
  {
    if userid in cfg.siteadmins then Run(db, Err("useradminodelete"))
    else match FirstUser(db.users, (u: User) => u.id == userid && u.mnethostid == cfg.localhost)
      case None => Run(db, Err("invalidrecord"))
      case Some(user) =>
        var anonymised := db.(users := UpdateRecord(db.users, Anonymised(user, AnonymousName(cfg))));
        if hostDeletes then Run(HostDeleteUser(anonymised, userid, tombstone), Ok(()))
        else Run(anonymised, Err("could not delete user"))
  }

  /**
   * After a successful delete_user the row is deleted and keeps the placeholder
   * names; its username and email are what the host's deletion wrote over the
   * anonymised ones.
   */
  lemma DeletedUserIsAnonymous(db: Db, cfg: Config, userid: nat, tombstone: Tombstone, i: nat)
    requires UsersWellFormed(db.users)
    requires DeleteUserSpec(db, cfg, userid, true, tombstone).result.Ok?
    requires i < |db.users| && db.users[i].id == userid
    ensures var after := DeleteUserSpec(db, cfg, userid, true, tombstone).db.users[i];
      var name := AnonymousName(cfg);
      && after.deleted && after.username == tombstone.username && after.email == tombstone.email
      && after.firstname == name && after.lastname == name
  {
    var row := FirstUser(db.users, (u: User) => u.id == userid && u.mnethostid == cfg.localhost).value;
    SameIdSameRow(db.users, row, db.users[i]);
  }

  /** util::delete_user: changes the database exactly as DeleteUserSpec says. */
  method DeleteUser(site: Site, cfg: Config, userid: nat, hostDeletes: bool, tombstone: Tombstone) returns (r: Result<()>)
    modifies site`db
    ensures Run(site.db, r) == DeleteUserSpec(old(site.db), cfg, userid, hostDeletes, tombstone)
  {
    if userid in cfg.siteadmins {
      return Err("useradminodelete");
    }
    var user := FirstUser(site.db.users, (u: User) => u.id == userid && u.mnethostid == cfg.localhost);
    if user.None? {
      return Err("invalidrecord");
    }
    var name := AnonymousName(cfg);
    var anonymised := user.value.(firstname := name, lastname := name);
    anonymised := anonymised.(email := name + "." + name + ANONYMOUS_DOMAIN);
    site.db := site.db.(users := UpdateRecord(site.db.users, anonymised));
    if !hostDeletes {
      return Err("could not delete user");
    }
    site.db := HostDeleteUser(site.db, userid, tombstone);
    r := Ok(());
  }

  // ---------------------------------------------------------------------
  // delete_companionuser

  /** The companion a deletion request names: the id itself, or the companion linked to a main user. */
  function CompanionTarget(accounts: seq<Link>, id: nat, iscompanionid: bool): (c: Option<nat>)
    ensures iscompanionid ==> c == Some(id)
    ensures !iscompanionid && LinkByMain(accounts, id).None? ==> c.None?
    ensures !iscompanionid && LinkByMain(accounts, id).Some? ==> c == Some(LinkByMain(accounts, id).value.companionid)
  {
    if iscompanionid then Some(id)
    else match LinkByMain(accounts, id)
      case None => None
      case Some(link) => Some(link.companionid)
  }

  predicate IsActiveCompanion(u: User)
  {
    u.auth == AUTH && !u.deleted
  }

  /**
   * util::delete_companionuser(id, iscompanionid), kept abstract: the link rows
   * of the resolved companion are removed, and an active companion row is
   * deleted by the host (which drops its preferences).
   */
  function DeleteCompanionUser(db: Db, id: nat, iscompanionid: bool, tombstone: Tombstone): (db': Db)
    ensures CompanionTarget(db.accounts, id, iscompanionid).None? ==> db' == db
    ensures db'.courses == db.courses
    ensures forall e :: e in db'.enrolments ==> e in db.enrolments && db'.enrolments[e] == db.enrolments[e]
  {
    match CompanionTarget(db.accounts, id, iscompanionid)
    case None => db
    case Some(cid) =>
      var unlinked := db.(accounts := RemoveLinksOf(db.accounts, cid));
      match UserById(db.users, cid)
      case Some(u) =>
        if IsActiveCompanion(u) then HostDeleteUser(unlinked, cid, tombstone) else unlinked
      case None => unlinked
  }

  /** The ids of active companion rows (count_records('user', ['deleted' => 0, 'auth' => 'companion'])). */
  function ActiveCompanions(users: seq<User>): (ids: set<nat>)
    ensures forall id :: id in ids <==> exists u :: u in users && u.id == id && IsActiveCompanion(u)
  {
    set u | u in users && IsActiveCompanion(u) :: u.id
  }

  /** Host deletion of a row takes exactly that id out of the active companions. */
  lemma HostDeleteLeavesActive(db: Db, cid: nat, tombstone: Tombstone)
    ensures ActiveCompanions(HostDeleteUser(db, cid, tombstone).users) == ActiveCompanions(db.users) - {cid}
  {
    var users' := HostDeleteUser(db, cid, tombstone).users;
    forall id ensures id in ActiveCompanions(users') <==> id in ActiveCompanions(db.users) - {cid} {
      if id in ActiveCompanions(users') {
        var v :| v in users' && v.id == id && IsActiveCompanion(v);
        var i :| 0 <= i < |users'| && users'[i] == v;
        assert db.users[i] in db.users;
      }
      if id in ActiveCompanions(db.users) - {cid} {
        var v :| v in db.users && v.id == id && IsActiveCompanion(v);
        var i :| 0 <= i < |db.users| && db.users[i] == v;
        assert users'[i] in users';
      }
    }
  }

  /**
   * The contract the plugin's tests state for delete_companionuser: the
   * companion leaves the active companions, its link rows go, and
   * get_instance_by_companion then throws.
   */
  lemma DeleteCompanionUserContract(db: Db, cid: nat, tombstone: Tombstone, userid: nat)
    requires UsersWellFormed(db.users)
    requires cid in ActiveCompanions(db.users)
    ensures var db' := DeleteCompanionUser(db, cid, true, tombstone);
      && ActiveCompanions(db'.users) == ActiveCompanions(db.users) - {cid}
      && (forall l :: l in db'.accounts ==> l.companionid != cid)
      && (forall e :: e in db'.enrolments ==> e.1 != cid)
      && ((exists l :: l in db.accounts && l.companionid == cid) ==> |db'.accounts| < |db.accounts|)
      && InstanceByCompanion(State(db', userid), cid).Err?
  {
    var v :| v in db.users && v.id == cid && IsActiveCompanion(v);
    var u := UserById(db.users, cid).value;
    SameIdSameRow(db.users, u, v);
    var unlinked := db.(accounts := RemoveLinksOf(db.accounts, cid));
    var db' := HostDeleteUser(unlinked, cid, tombstone);
    assert DeleteCompanionUser(db, cid, true, tombstone) == db';
    HostDeleteLeavesActive(unlinked, cid, tombstone);
    assert GetPref(db'.prefs, cid, PREF_MAINUSER).None?;
  }

  /** Deleting for a main user twice deletes once: the first call removes the main user's only link row. */
  lemma DeleteByMainIdempotent(db: Db, mainid: nat, tombstone: Tombstone)
    requires AccountsWellFormed(db.accounts)
    ensures var once := DeleteCompanionUser(db, mainid, false, tombstone);
      && AccountsWellFormed(once.accounts)
      && DeleteCompanionUser(once, mainid, false, tombstone) == once
  {
    var once := DeleteCompanionUser(db, mainid, false, tombstone);
    match LinkByMain(db.accounts, mainid)
    case None =>
    case Some(link) =>
      var remaining := RemoveLinksOf(db.accounts, link.companionid);
      RemoveLinksKeepsWellFormed(db.accounts, link.companionid);
      assert once.accounts == remaining;
      forall l | l in remaining ensures l.mainuserid != mainid {
        if l.mainuserid == mainid {
          SameMainSameRow(db.accounts, l, link);
        }
      }
  }
}
