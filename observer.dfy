/** The user_deleted event observer (classes/observer.php). */
module Observer {
  import opened Wrappers
  import opened Moodle
  import opened AuthPlugin
  import opened Util

  /** The event's object id and the snapshot of the deleted user's row. */
  datatype UserDeletedEvent = UserDeletedEvent(objectid: nat, snapshot: User)

  /**
   * The companion the observer deletes: none while the plugin is disabled or
   * when the deleted user is itself a companion; otherwise the companion of
   * the deleted user's link row, if there is one.
   */
  function CompanionToDelete(cfg: Config, accounts: seq<Link>, event: UserDeletedEvent): (r: Option<nat>)
    ensures !cfg.authEnabled ==> r.None?
    ensures event.snapshot.auth == AUTH ==> r.None?
    ensures r.Some? <==> cfg.authEnabled && event.snapshot.auth != AUTH && LinkByMain(accounts, event.objectid).Some?
    ensures r.Some? ==> exists l :: l in accounts && l.mainuserid == event.objectid && l.companionid == r.value
  {
    if !cfg.authEnabled then None
    else if event.snapshot.auth == AUTH then None
    else match LinkByMain(accounts, event.objectid)
      case None => None
      case Some(link) => Some(link.companionid)
  }

  /** user_deleted: returns true only when the plugin is disabled (otherwise nothing, PHP null). */
  method UserDeleted(site: Site, cfg: Config, event: UserDeletedEvent, tombstone: Tombstone) returns (r: Option<bool>)
    modifies site`db
    ensures r == if cfg.authEnabled then None else Some(true)
    ensures site.db == match CompanionToDelete(cfg, old(site.db.accounts), event)
      case None => old(site.db)
      case Some(cid) => DeleteCompanionUser(old(site.db), cid, true, tombstone)
  {
    if !cfg.authEnabled {
      return Some(true);
    }
    var userid := event.objectid;
    var deleteduser := event.snapshot;
    if deleteduser.auth == AUTH {
      return None;
    }
    var companionrecord := LinkByMain(site.db.accounts, userid);
    if companionrecord.Some? {
      site.db := DeleteCompanionUser(site.db, companionrecord.value.companionid, true, tombstone);
    }
    return None;
  }
}
