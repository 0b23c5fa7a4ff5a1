/**
 * The privacy provider (classes/privacy/provider.php): which users and
 * contexts hold companion data, what is exported, and which ids a deletion
 * request hands to the companion deletion.
 */
module Privacy {
  import opened Wrappers
  import opened Moodle
  import opened Util

  /** A context, identified by its level and the id of the thing it belongs to. */
  datatype Context = Context(contextlevel: nat, instanceid: nat)

  /** An approved_contextlist: the user whose data goes and the approved contexts. */
  datatype ApprovedContextList = ApprovedContextList(userid: nat, contexts: seq<Context>)

  /** An approved_userlist: one context and the approved users in it. */
  datatype ApprovedUserList = ApprovedUserList(context: Context, userids: seq<nat>)

  /** What export_user_data writes for a user. */
  datatype Export = Export(companionid: nat, timecreated: int, companionfirstname: string, companionlastname: string)

  predicate IsUserContext(context: Context)
  {
    context.contextlevel == CONTEXT_USER
  }

  /** get_contexts_for_userid: the user's own context when a link row names them as main user. */
  function ContextsForUserid(accounts: seq<Link>, userid: nat): (contexts: set<Context>)
    ensures contexts <= {Context(CONTEXT_USER, userid)}
    ensures Context(CONTEXT_USER, userid) in contexts <==> exists l :: l in accounts && l.mainuserid == userid
  {
    if LinkByMain(accounts, userid).Some? then {Context(CONTEXT_USER, userid)} else {}
  }

  /** get_users_in_context: nobody outside a user context; in one, its user when linked as main user. */
  function UsersInContext(accounts: seq<Link>, context: Context): (userids: set<nat>)
    ensures !IsUserContext(context) ==> userids == {}
    ensures userids <= {context.instanceid}
    ensures context.instanceid in userids <==>
      IsUserContext(context) && exists l :: l in accounts && l.mainuserid == context.instanceid
  {
    if !IsUserContext(context) then {}
    else if LinkByMain(accounts, context.instanceid).Some? then {context.instanceid}
    else {}
  }

  /** export_user_data: nothing when the user has no link row or the companion's row is missing. */
  function ExportUserData(db: Db, userid: nat): (r: Option<Export>)
    ensures LinkByMain(db.accounts, userid).None? ==> r.None?
    ensures r.Some? ==>
      var link := LinkByMain(db.accounts, userid).value;
      && r.value.companionid == link.companionid && r.value.timecreated == link.timecreated
      && exists c :: c in db.users && c.id == link.companionid
           && c.firstname == r.value.companionfirstname && c.lastname == r.value.companionlastname
    ensures LinkByMain(db.accounts, userid).Some? ==>
      (r.None? <==> UserById(db.users, LinkByMain(db.accounts, userid).value.companionid).None?)
  {
    match LinkByMain(db.accounts, userid)
    case None => None
    case Some(link) =>
      match UserById(db.users, link.companionid)
      case None => None
      case Some(c) => Some(Export(link.companionid, link.timecreated, c.firstname, c.lastname))
  }

  /**
   * delete_user_data(userid): the id is taken as a main user's id, so what is
   * deleted is the companion its link row names, and nothing without one.
   */
  function DeleteUserData(db: Db, userid: nat, tombstone: Tombstone): (db': Db)
    ensures LinkByMain(db.accounts, userid).None? ==> db' == db
    ensures LinkByMain(db.accounts, userid).Some? ==>
      db' == DeleteCompanionUser(db, LinkByMain(db.accounts, userid).value.companionid, true, tombstone)
  {
    DeleteCompanionUser(db, userid, false, tombstone)
  }

  /** The main user a deletion for a whole context or an approved user list targets: only a user context's user. */
  function ContextTarget(context: Context): (r: Option<nat>)
    ensures r.Some? <==> IsUserContext(context)
    ensures r.Some? ==> r.value == context.instanceid
  {
    if context.contextlevel != CONTEXT_USER then None else Some(context.instanceid)
  }

  /** Deleting for one main user keeps the link rows of every other main user. */
  lemma DeleteUserDataKeepsOthers(db: Db, userid: nat, other: nat, tombstone: Tombstone)
    requires AccountsWellFormed(db.accounts) && other != userid
    ensures forall l :: l in db.accounts && l.mainuserid == other ==> l in DeleteUserData(db, userid, tombstone).accounts
    ensures forall l :: l in DeleteUserData(db, userid, tombstone).accounts ==> l.mainuserid != userid
  {
    match LinkByMain(db.accounts, userid)
    case None =>
    case Some(link) =>
      forall l | l in db.accounts && l.mainuserid == other ensures l.companionid != link.companionid {
        if l.companionid == link.companionid {
          SameCompanionSameRow(db.accounts, l, link);
        }
      }
      DeleteByMainIdempotent(db, userid, tombstone);
  }

  /** Some approved context is the user context of the list's own user. */
  predicate ApprovesOwnContext(list: ApprovedContextList, upTo: nat)
    requires upTo <= |list.contexts|
  {
    exists i :: 0 <= i < upTo && IsUserContext(list.contexts[i]) && list.contexts[i].instanceid == list.userid
  }

  /** delete_data_for_all_users_in_context */
  method DeleteDataForAllUsersInContext(site: Site, context: Context, tombstone: Tombstone)
    modifies site`db
    ensures site.db == match ContextTarget(context)
      case None => old(site.db)
      case Some(userid) => DeleteUserData(old(site.db), userid, tombstone)
  {
    if context.contextlevel != CONTEXT_USER {
      return;
    }
    site.db := DeleteUserData(site.db, context.instanceid, tombstone);
  }

  /**
   * delete_data_for_user: nothing for an empty list; otherwise the companion
   * data of the list's user goes when one of the approved contexts is that
   * user's own context, and every other context is skipped.
   */
  method DeleteDataForUser(site: Site, list: ApprovedContextList, tombstone: Tombstone)
    requires AccountsWellFormed(site.db.accounts)
    modifies site`db
    ensures |list.contexts| == 0 ==> site.db == old(site.db)
    ensures site.db == if ApprovesOwnContext(list, |list.contexts|)
      then DeleteUserData(old(site.db), list.userid, tombstone) else old(site.db)
  {
    if |list.contexts| == 0 {
      return;
    }
    var userid := list.userid;
    ghost var before := site.db;
    DeleteByMainIdempotent(before, userid, tombstone);
    var i := 0;
    while i < |list.contexts|
      invariant 0 <= i <= |list.contexts|
      invariant site.db == if ApprovesOwnContext(list, i) then DeleteUserData(before, userid, tombstone) else before
    {
      var context := list.contexts[i];
      if context.contextlevel == CONTEXT_USER && context.instanceid == userid {
        site.db := DeleteUserData(site.db, context.instanceid, tombstone);
      }
      assert ApprovesOwnContext(list, i + 1) <==>
        ApprovesOwnContext(list, i) || (IsUserContext(context) && context.instanceid == userid);
      i := i + 1;
    }
  }

  /** delete_data_for_users: only a user context's own user; the listed user ids are not consulted. */
  method DeleteDataForUsers(site: Site, list: ApprovedUserList, tombstone: Tombstone)
    modifies site`db
    ensures site.db == match ContextTarget(list.context)
      case None => old(site.db)
      case Some(userid) => DeleteUserData(old(site.db), userid, tombstone)
  {
    if IsUserContext(list.context) {
      site.db := DeleteUserData(site.db, list.context.instanceid, tombstone);
    }
  }
}
