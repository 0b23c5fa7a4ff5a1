# auth_companion, modelled in Dafny

This project models the companion-account plugin for Moodle (`auth_companion`).
A logged-in user (the *main* user) can switch into a second account, the *companion*.
The companion's username is derived from the main user's id. It is enrolled in the current course and can later switch back.
The plugin also anonymises and deletes users, decides the custom user-menu entries, answers privacy requests, reacts to the deletion of a main user, and validates its email-domain setting.

The host (Moodle) is modelled as a value `Moodle.Db` with these parts:
- the user table, as rows in id order, so that `get_record` is the first matching row;
- the user preferences;
- the `auth_companion_accounts` link table;
- courses with their enrolment instances;
- the enrolments.

It sits in a `Moodle.Site` object together with the session's user id (0 when logged out) and the `customusermenuitems` setting.
Each operation the plugin performs on the host has two forms:
- a function from the old state to the new state and its result, `Result` being `Ok` or `Err(exception)`;
- a method on `Site` or on the `Companion` class whose postcondition ties it to that function.

The properties the code promises are lemmas about those functions.

Modules:
- `Wrappers`: `Option` and `Result`.
- `Moodle`: the host, covering users, preferences, the link table and the pieces of the host API the plugin calls.
- `AuthPlugin` (auth.php): the field locks, the `userfields` filter, `user_login` and the fixed password policy.
- `Companions` (classes/companion.php): record derivation, creation on demand, the two-way preference link, login, relogin and enrolment.
- `Util` (classes/util.php): the user menu, `is_companion`, `page_is_course`, `delete_user`, and the companion deletion that the provider and observer call.
- `Privacy` (classes/privacy/provider.php): the privacy provider.
- `Observer` (classes/observer.php): the observer of the `user_deleted` event.
- `AdminSettingDomain` (classes/adminsetting_domain.php): the email-domain setting.
- `Pages` (enter.php, leave.php): the two switching pages, and the round trip between them.

The code links the two accounts in two ways.
- **Preferences.** `companion.php` writes `auth_companion_user` on the main user and `auth_companion_mainuser` on the companion. `get_instance_by_companion` checks that each points at the other. The model follows this code for creating companions and resolving them.
- **Link table.** The privacy provider and the observer read `auth_companion_accounts`. The model reads that table in exactly those places. No operation shown here inserts into it.

leave.php (leave.php:68-71) logs out and redirects when `get_instance_by_companion` returns nothing.
That method never returns nothing: on a broken link it throws (classes/companion.php:145-160), so this branch never runs.
The model follows the code: leaving through a broken link is an error, and the session is left as it was.

## Model

| member | source | states |
|---|---|---|
| Moodle.CreateUserRecord | classes/companion.php:124 | create_user_record fails exactly when the username is taken on that host; otherwise it appends one active row with a fresh positive id, the given auth and a hash that validates the given password |
| Moodle.CreateKeepsWellFormed | classes/companion.php:124 | creating a row keeps ids and (username, host) pairs unique |
| Moodle.UpdateRecord | classes/companion.php:61 | update_record replaces every row with the record's id and leaves all other rows unchanged |
| Moodle.UpdateKeepsWellFormed | classes/companion.php:61 | rewriting a row without changing its id, username or host keeps the table well formed |
| Moodle.HostDeleteUser | classes/util.php:111 | the host's deletion marks the row deleted, gives it the tombstone username and email, drops that user's preferences and enrolments, keeps every other row, preference and enrolment, and leaves links and courses alone |
| Moodle.LinkByMain | classes/observer.php:49 | the link row of a main user is a row of the table with that mainuserid, and there is none exactly when no row names it |
| Moodle.RemoveLinksOf | tests/companion_test.php:197-201 | removing a companion's link rows keeps exactly the other rows, and the table shrinks when the companion had a row |
| Moodle.RemoveLinksKeepsWellFormed | tests/companion_test.php:197-201 | removing link rows keeps mainuserid and companionid unique |
| Moodle.GetPref | classes/companion.php:149-154 | get_user_preferences yields a value exactly when the (user, name) preference is stored, and then yields that value |
| Moodle.SetPref | classes/companion.php:46 | set_user_preference stores the value for a real user and changes no other preference; it stores nothing for user id 0 |
| AuthPlugin.UnlockedMembers | auth.php:49-57 | a field is kept in userfields exactly when it was inherited and is not firstname, lastname or email |
| AuthPlugin.UnlockedAppend | auth.php:52-57 | the filter works element by element, so kept fields keep their original order |
| AuthPlugin.UnlockedKeepsOthers | auth.php:52-57 | a field list without locked fields passes through unchanged |
| AuthPlugin.LockedConfig | auth.php:44-46 | the three field_lock settings become 'locked' and every other stored setting is kept |
| AuthPlugin.UserLogin | auth.php:74-87 | user_login is false when no row has that username on the local host, and true only for a row whose stored hash validates the password |
| AuthPlugin.UserLoginExact | auth.php:80-86 | in a well-formed table, user_login for a row's username is true exactly when the password validates against that row |
| AuthPlugin.AuthPluginCompanion.constructor | auth.php:39-58 | authtype is 'companion', the field locks are forced, and userfields is the inherited list filtered by the loop (an invariant ties the loop to the filter) |
| AuthPlugin.AuthPluginCompanion.UserUpdatePassword | auth.php:92-94 | password updates are always refused |
| AuthPlugin.AuthPluginCompanion.PreventLocalPasswords | auth.php:96-99 | local passwords are never prevented |
| AuthPlugin.AuthPluginCompanion.IsInternal | auth.php:106-109 | the plugin is internal |
| AuthPlugin.AuthPluginCompanion.CanChangePassword | auth.php:116-118 | the password can never be changed |
| AuthPlugin.AuthPluginCompanion.CanResetPassword | auth.php:123-125 | the password can never be reset |
| AuthPlugin.AuthPluginCompanion.CanBeManuallySet | auth.php:132-134 | the auth can be set manually |
| Companions.CompanionUsername | classes/companion.php:115 | the companion username is the decimal main id followed by the suffix |
| Companions.CompanionUsernameInjective | classes/companion.php:115 | two main users never share a companion username |
| Companions.FindCompanionRow | classes/companion.php:116 | the lookup returns a row with that username and auth 'companion', and returns none exactly when no such row exists |
| Companions.WithDerivedFields | classes/companion.php:130-132 | firstname becomes the main firstname and lastname becomes the main lastname + ' ' + namesuffix; email becomes username + '@companion.invalid'; nothing else changes |
| Companions.CompanionRecord | classes/companion.php:110-134 | an existing companion row is returned unchanged and nothing is written; without forcecreate the database is untouched; with forcecreate a row is created with auth 'companion', and the returned record is that row with derived names and email; creation fails only on a username clash |
| Companions.CompanionRecordReused | classes/companion.php:114-129 | a second forcecreate for the same main user finds the first one's row and writes nothing (no duplicate) |
| Companions.Construct | classes/companion.php:37-48 | mainuserid is the given user's id, or the session user's when none is given; only with forcecreate is the main user's auth_companion_user set to the companion id |
| Companions.ConstructIdempotent | classes/companion.php:37-48 | constructing twice with forcecreate for the same main user yields the same companion id and the same database |
| Companions.AuthenticateUserLogin | classes/companion.php:62-63 | a successful host login returns the active local row with that username and auth 'companion' |
| Companions.LoginSpec | classes/companion.php:50-69 | nothing happens when the auth is disabled; otherwise the freshly hashed password is written before authenticating; failure logs out and throws; success makes the companion the session user |
| Companions.LoginSucceeds | classes/companion.php:59-68 | logging in a stored active companion of a well-formed table always succeeds, returns the updated record, and keeps the table well formed |
| Companions.ReloginSpec | classes/companion.php:71-84 | nothing happens when the auth is disabled; otherwise it succeeds exactly when the main user has a row on the local host that is not deleted, which then becomes the session user; on failure the session is unchanged; the database is never changed |
| Companions.FirstManual | classes/companion.php:91-98 | the chosen instance is manual and every earlier one is not; there is none exactly when no instance is manual |
| Companions.EnrolSpec | classes/companion.php:86-104 | enrols the companion through the first manual instance with timestart = timeend = 0, and throws 'No manual instance found!' when there is none; users, preferences and links are untouched |
| Companions.FindManualInstance | classes/companion.php:90-98 | the loop with break finds an instance exactly when one is manual, and finds the first manual one |
| Companions.ManualIsFirst | classes/companion.php:92-97 | a manual instance preceded only by non-manual ones is the first manual instance |
| Companions.InstanceByCompanion | classes/companion.php:145-160 | succeeds exactly when the companion's mainuser preference names a main user whose auth_companion_user preference names the companion back and whose row exists; it then yields that main user; 'wrong userid' when the back-reference disagrees |
| Companions.Companion.Init | classes/companion.php:43-44 | the object holds the main user id and the companion record |
| Companions.Companion.GetCompanionRecord | classes/companion.php:110-134 | performs CompanionRecord on the host, copying the new row's columns into the record |
| Companions.Companion.New | classes/companion.php:37-48 | performs Construct on the host and returns a fresh object with its fields |
| Companions.Companion.GetId | classes/companion.php:106-108 | the id of the companion record |
| Companions.Companion.Login | classes/companion.php:50-69 | performs LoginSpec on the host and keeps the hashed password in the object |
| Companions.Companion.ReloginMain | classes/companion.php:71-84 | performs ReloginSpec on the host |
| Companions.Companion.Enrol | classes/companion.php:86-104 | performs EnrolSpec on the host, using FindManualInstance |
| Companions.Companion.GetInstanceByCompanion | classes/companion.php:145-160 | returns an object for the main user exactly when InstanceByCompanion succeeds, otherwise its exception; writes nothing |
| Util.IsCompanion | classes/util.php:74-81 | true exactly when the session user's auth is 'companion' |
| Util.IsCompanionIgnoresArgument | classes/util.php:77-80 | the argument passed to is_companion never changes the answer |
| Util.PageIsCourse | classes/util.php:83-92 | true exactly for a course-level context whose course is not the site course |
| Util.MenuItem | classes/util.php:55 | an entry is the separator "\n###\n" followed by name + '\|' + url |
| Util.UserMenu | classes/util.php:34-72 | the menu is unchanged on admin pages. Otherwise a companion gets exactly one switch-back entry with the current URL as backurl. A non-companion gets the enter entry for the page's course only with the capability on a course page. Earlier content is always kept |
| Util.SwitchBackEverywhere | classes/util.php:49-57 | outside admin pages a companion's menu gets the same single entry whatever the page and capability |
| Util.SetUserMenu | classes/util.php:34-72 | appends to customusermenuitems exactly as UserMenu says for the session user |
| Util.AnonymousName | classes/util.php:105 | the configured anonymous name, or 'anonymous' when it is empty |
| Util.Anonymised | classes/util.php:105-108 | first and last name become the placeholder, email becomes placeholder.placeholder@auth-companion.invalid, nothing else changes |
| Util.DeleteUserSpec | classes/util.php:94-115 | a site admin is refused before anything is written; the row must exist on the local host; the anonymised row is written before the host deletes it and stays written when the host refuses |
| Util.DeletedUserIsAnonymous | classes/util.php:104-113 | after a successful delete_user the row is deleted, carries the placeholder first and last names, and carries the host's tombstone username and email (the host overwrites the placeholder email) |
| Util.DeleteUser | classes/util.php:94-115 | performs DeleteUserSpec on the host |
| Util.CompanionTarget | classes/privacy/provider.php:182 | a companion id is used as given; a main user id is resolved through its link row, and resolves to nothing without one |
| Util.DeleteCompanionUser | tests/companion_test.php:193-209 | the deletion changes nothing when there is no target; it never touches courses, and it never adds or changes an enrolment (it can only drop them) |
| Util.ActiveCompanions | tests/companion_test.php:190-196 | the ids of rows that are not deleted and have auth 'companion' |
| Util.HostDeleteLeavesActive | tests/companion_test.php:196-200 | host deletion takes exactly that id out of the active companions |
| Util.DeleteCompanionUserContract | tests/companion_test.php:193-209 | deleting an active companion removes it from the active companions, leaves no link row and no enrolment for it, shrinks the link table when it had a row, and makes get_instance_by_companion fail |
| Util.DeleteByMainIdempotent | classes/privacy/provider.php:112-119 | deleting for the same main user a second time changes nothing |
| Privacy.ContextsForUserid | classes/privacy/provider.php:47-57 | only the user's own user context, and that one exactly when a link row names the user as main user |
| Privacy.UsersInContext | classes/privacy/provider.php:127-139 | no users outside a user context; in one, its user exactly when linked as a main user |
| Privacy.ExportUserData | classes/privacy/provider.php:64-88 | nothing is exported without a link row or when the companion row is missing; otherwise exports the link's companion id and time with the companion's names |
| Privacy.DeleteUserData | classes/privacy/provider.php:178-183 | the id is taken as a main user id: the companion named by its link row is deleted, and nothing happens without one |
| Privacy.ContextTarget | classes/privacy/provider.php:95-99 | only a user context yields a user to delete, and that user is the context's instance id |
| Privacy.DeleteUserDataKeepsOthers | tests/privacy/provider_test.php:104-113 | deleting for one main user removes that user's link row and keeps every other main user's rows |
| Privacy.DeleteDataForAllUsersInContext | classes/privacy/provider.php:95-100 | does nothing for a non-user context, otherwise deletes for the context's user |
| Privacy.DeleteDataForUser | classes/privacy/provider.php:107-120 | does nothing for an empty list; the loop deletes exactly when some approved context is the user's own user context; other contexts are skipped |
| Privacy.DeleteDataForUsers | classes/privacy/provider.php:146-152 | acts only for a user context; a system-context list leaves the data intact |
| Observer.CompanionToDelete | classes/observer.php:36-52 | nothing while the auth is disabled or when the deleted user is a companion; otherwise exactly the companion of the deleted user's link row, and nothing without a row |
| Observer.UserDeleted | classes/observer.php:36-52 | returns true only when disabled, and deletes exactly the companion CompanionToDelete names |
| AdminSettingDomain.NewDomainSetting | classes/adminsetting_domain.php:38-40 | the caller's fields are kept and the type is always PARAM_RAW |
| AdminSettingDomain.Validate | classes/adminsetting_domain.php:47-56 | empty input gives error_empty_emaildomain; non-empty input is accepted exactly when 'dummy@' + data is a valid address, and otherwise gives error_wrong_emaildomain |
| Pages.SwitchToCompanion | enter.php:59-66 | the switch yields the record that new companion($USER, true) created, fails when that creation fails, writes the course and mainuser preferences for the new session user, and never touches courses or enrolments |
| Pages.EnterSpec | enter.php:28-79 | a missing course and a missing capability fail with nothing changed; cancel redirects to the course with nothing changed; a confirm performs the switch, and then either enrols through the first manual instance and redirects with a notification, or throws 'No manual instance found!' with the switch kept |
| Pages.Enter | enter.php:28-73 | performs EnterSpec: create the companion, log in, write the course and mainuser preferences, then enrol |
| Pages.BackUrl | leave.php:32-37 | an empty backurl becomes the site root |
| Pages.LeaveSpec | leave.php:30-84 | without login, redirects to login; cancel changes nothing. Under forcelogin it only logs out, with no notification. Otherwise the main user is resolved and logged in again; a broken link, or a main user that is not an active local row, throws with nothing changed. deletedata deletes the captured companion id |
| Pages.Leave | leave.php:30-84 | performs LeaveSpec through the Companion class |
| Pages.EnterCreates | enter.php:60-61 | for an active local main user whose companion name is free, new companion($USER, true) creates an active row with a fresh id and sets the main user's auth_companion_user to it |
| Pages.SwitchLogsIn | enter.php:59-66 | from an active local main user, the switch logs in a newly created active companion; the two preferences point at each other and the course preference is written |
| Pages.EnterSwitches | enter.php:59-73 | entering a course with a manual instance switches the session to a newly created active companion, with the two preferences pointing at each other, and enrols it through the first manual instance |
| Pages.EnterWithoutManualInstance | enter.php:59-69 | entering a course without a manual instance throws 'No manual instance found!' after the switch, and nothing is rolled back: the session stays with the new companion and its preferences stay written |
| Pages.LeaveReturns | leave.php:65-72 | leaving without forcelogin from a companion with an intact link to an active local main user logs the main user back in and changes nothing else |
| Pages.EnterThenLeave | enter.php:60-67 | after entering, get_instance_by_companion resolves the companion to the main user, and leaving brings the session back to the main user |
| Pages.LeaveDeletesCompanion | leave.php:65-78 | when the main user can log in again (or under forcelogin), leaving with deletedata removes the companion from the active companions and leaves no link row for it; the companion can no longer be resolved, and under forcelogin the session is logged out |

## Left out

- Randomness: `generate_password()` is a parameter (`password`, `pwCreate`, `pwLogin`).
- Password hashing: `Moodle.HashPassword` is a fixed injective tagging. The only property the plugin relies on is that verification accepts exactly the hashed password.
- Host login: `authenticate_user_login` and `complete_user_login` are reduced to the row lookup plus the plugin's own `user_login`. Lockout, suspension, events and other auth plugins are not modelled, and the session is only its user id.
- Companions.LoginSpec: when authentication fails, `login()` passes `false` on to `complete_user_login` (classes/companion.php:63-64). The model takes the evident intent: log out and throw 'could not login companion user'.
- Host user deletion: `delete_user` is a verdict parameter plus the tombstone username and email it assigns (the host derives them from a hash and the time). It marks the row deleted and drops the user's preferences and enrolments; its other clean-up (role assignments, group memberships, events) is not modelled. The session garbage collection after deletion (classes/util.php:114) is not modelled.
- `util::delete_companionuser` is not part of the shown util.php. `Util.DeleteCompanionUser` is an abstract stand-in with the behaviour the tests promise. Anything it does beyond what the tests observe is not modelled.
- The observer calls `delete_companionuser` with one argument. The model assumes the default makes it a companion id.
- `create_user_record`: the host's lower-casing and trimming of the username, and its other default columns, are not modelled. The suffix is taken as already normalised.
- `relogin_main`: when the main row is missing, is on another host or is deleted, `get_complete_user_data` finds nothing and PHP hands `false` on to `complete_user_login` (or dereferences a missing record). The model turns each of these into the error 'could not log in main user', with the session unchanged.
- Enrolment with a role and groups (as the tests call it) is not part of the shown `enrol`, and is not modelled.
- URLs are plain strings. `moodle_url` encoding, `wwwroot`, `PARAM_LOCALURL` cleaning of backurl, and `s()` escaping are not modelled.
- Rendering, forms, page setup, strings, notifications' text and the navigation hooks are not modelled. The `auth_plugin_companion()` alias only calls the constructor. `get_password_change_info` and `get_metadata` are static descriptions.
- The capability checks `require_capability` and `has_capability`, and `is_siteadmin`, are inputs: `canCompanion`, and the `siteadmins` set in `Config`.
- The `validate_email` check is a function parameter.
- `set_user_preference` for the guest user is not modelled. User id 0 (nobody logged in) stores nothing.
- The background sweep for orphaned companions is not part of the shown code.
- Pages.EnterSpec: its own contract ties a confirmed enter to `Pages.SwitchToCompanion` and the enrolment. The new session user and preferences are stated by `Pages.SwitchLogsIn`, `Pages.EnterSwitches` and `Pages.EnterWithoutManualInstance`, and only under `Pages.CanSwitch`: a well-formed table, an active local main user and a free companion name.
- Pages.LeaveSpec: when the companion resolves, its contract states the session user and the response. The database after an optional deletion is stated by `Pages.LeaveDeletesCompanion`.
- Privacy.DeleteDataForUser: requires the link table's unique indexes (`AccountsWellFormed`). Under them, a repeated deletion for the same user is a no-op.
