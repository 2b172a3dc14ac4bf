# AegisAdmin: a verified model

This project models five parts of AegisAdmin, a web console for administering a Debian server, and proves what
they promise. `dafny verify dfyconfig.toml` checks the whole of it.

1. **Login, two-factor and password protocol** (`Accounts`, `Protocol`, `ProtocolSafety`, `ProtocolRuns`,
   `ProtocolExample`). Handlers read a session and a user row, and later ask the store for a conditional update and
   rotate the session. Each of these is one event of its own, so that every other event can fall in between.
   `Accounts.Store` is the users table, updated in place; the protocol applies the same row updates to a world that also
   records every session issued, every credential state reached and every update granted.
2. **Sessions with a copy on disk** (`Base64`, `Sessions`, `SessionSafety`, `SessionRuns`, `SessionManager`). `Manager`
   is the session table updated in place; each call is proved equal to a function of the state before it, and the
   invariant and the theorems are about that function over whole runs.
3. **Crontab editing and listing** (`Utf8`, `CronText`, `CronSyntax`, `CronEncoding`, `CronParser`, `CronEditor`,
   `CronEdits`, `CronContents`, `CronResume`, `CronLister`, `CronAgreement`, `CronAcceptance`). Reading is cutting the
   lines into chunks and numbering them; the laws of cutting are proved for any reader of one chunk that looks only at
   the lines it spans.
4. **Block devices** (`Devices`) and the **structural difference of JSON values** (`Differences`, `DifferenceRows`,
   `DifferenceLaws`, `DifferenceLimits`, `DifferenceLists`, `DifferenceReport`).
5. **Navigation ordering** (`Places`, `Navigation`, `NavigationOrder`, `NavigationRuns`, `NavigationAdmin`,
   `NavigationPage`) and **bounded output capture** (`Capture`).

`Wrappers`, `Strings`, `Names` and `Ordering` hold the option type, joining, the comparison of names without letter case,
and the sorted listing of a set of strings.

What the model takes for granted:

- User identifiers are never used again: the table declares AUTOINCREMENT
  (`database/migrations/001_create_users.sql`, line 2).
- Hashes are injective; whether a password or a code is right is an input of the step that checks it.
- The clock never goes back. A call reads it once per phase, and a save that succeeds once more at its end.
- A save has three outcomes: it succeeds, it fails before the file is replaced, or it fails after. Which one is an input
  of the call.
- A crontab is bytes, valid UTF-8 or not, without carriage returns inside lines, and white space is the space and the
  tab. Texts of a request are valid UTF-8, as decoding them from JSON leaves them
  (`backend/go/internal/server/server.go`, line 130). Identifiers of legacy tasks are named by what the digest is taken
  of.
- JSON encoding, default formatting, letter case and splitting at white space are parameters of the difference, and the
  theorems hold whatever they compute; equality of encodings is equality of values.
- SQL statements are functions on rows; of the joined query only the set and the order of its rows are used. A reader's
  sequence of chunks is an input of the capture.

What came out differently from what one might expect, each stated with its exact condition and an input that shows it:

- Requiring a second factor does not end open sessions (`ProtocolRuns.EditsThatEndSessions`,
  `ProtocolExample.RequiredFactorIsNotEnforced`).
- A save that fails after the file was replaced is answered with a failure and leaves the file ahead of memory. Each call
  has its condition (`SessionSafety.StepKeepsInv`); a session not in memory comes back exactly when a live record of it
  is on disk (`SessionRuns.StaysAwayExactly`); so a creation answered with a failure may open its session at the next
  start (`SessionRuns.LateCreationComesBack`, `SessionRuns.FailedCreationOpens`).
- The editor accepts a schedule whose line is a comment or an assignment, and the file it installs cannot be read
  again (`CronContents.InstalledCreate`, `CronContents.AcceptedInputIsLost`).
- The listing refuses files the editor accepts (`CronAgreement.ListingFails`): a file that is not valid UTF-8, which the
  editor gets repaired (`CronAgreement.LatinCommentIsNotListed`), an active command of white space only
  (`CronAgreement.BlankCommandIsNotListed`), and a task the editor itself created for a periodic directory
  (`CronAgreement.CreatedIsListed`).
- The editor refuses files the listing accepts, exactly those with a marker that is not directly above its task
  (`CronAcceptance.ListedIsEditable`, `CronAcceptance.LooseMarkerIsNotEditable`).
- An edit rewrites lines it does not name: exactly those that are not valid UTF-8 (`CronContents.OtherLinesKept`). It
  leaves a valid file unless it resumes a task whose payload is not valid (`CronContents.InstalledEdit`); the listing
  then fails (`CronAcceptance.ResumedIsNotListed`).
- Two different values may show no difference. Without lists, exactly when they agree wherever neither has fields to go
  on to (`DifferenceLaws.NoRowMeansSameLeaves`), so that a null is not told from a missing field nor an object of nulls
  from a scalar; with lists paired as scalars, exactly when no key but a null's is on one side only
  (`DifferenceLimits.ScalarListsAreSets`), so that an empty list is not told from a scalar
  (`DifferenceLimits.EmptyListShowsNothing`). An item added to or removed from an identified list is never
  hidden if it holds a text, a boolean or a number (`DifferenceLists.OneSidedItemShows`), and order shows only for
  virtual hosts that share file, name and port (`DifferenceLists.OrderDoesNotShow`, `DifferenceLists.TwoSuchHosts`).

## Model

| member | source | states |
|---|---|---|
| Accounts.Store.PrepareTOTP | backend/go/internal/authstore/store.go:94-106 | stores a pending secret only on an active row that still carries the version read and has no second factor in force; an existing secret is kept; the version stays |
| Accounts.Store.EnableTOTP | backend/go/internal/authstore/store.go:108-122 | compare-and-set on version and secret; on success the second factor is in force and the version is one higher; otherwise nothing is written |
| Accounts.Store.DisableTOTP | backend/go/internal/authstore/store.go:124-134 | compare-and-set on version, refused while a second factor is required; on success secret and factor are gone and the version is one higher |
| Accounts.Store.ChangePassword | backend/go/internal/authstore/store.go:136-151 | compare-and-set on version and current hash; on success new hash, duty to change off, version one higher |
| Accounts.Store.CreateAdminUser | backend/go/internal/authstore/admin.go:75-94 | a new row under an identifier never used, at version 1 and owing a password change; refused, changing nothing, when the login is not of 3 to 64 characters, is taken whatever its letter case, or a level is not one of four or its module cannot be assigned; the permission rows are exactly the levels given other than none |
| Accounts.Store.CollectLevels | backend/go/internal/authstore/admin.go:148-171 | the loop over the levels submitted fails if and only if some level other than none is unknown or its module cannot be assigned, and else leaves exactly those levels |
| Accounts.Store.UpdateAdminUser | backend/go/internal/authstore/admin.go:95-125 | one transaction: the row is rewritten and the permission rows replaced by exactly the levels given, or nothing is, as when another row has that login in any letter case or a level cannot be granted; of root neither changes; the version moves only with a reset of the second factor, not with a new requirement for one |
| Accounts.Store.ResetAdminPassword | backend/go/internal/authstore/admin.go:126-136 | an ordinary user gets the hash, owes a change, and is one version higher |
| Accounts.Store.DeleteAdminUser | backend/go/internal/authstore/admin.go:137-147 | an ordinary user is removed with the permission rows; root and unknown rows stay |
| Accounts.Store.InitializeRoot | backend/go/internal/authstore/lifecycle.go:122-136 | root is created once, and only while nobody has that login in any letter case |
| Accounts.Store.ResetRootPassword | backend/go/internal/authstore/lifecycle.go:138-153 | the root row gets the hash and owes no change, one version higher |
| Accounts.Store.DisableRootTwoFactor | backend/go/internal/authstore/lifecycle.go:157-168 | the root row loses secret, factor and requirement, one version higher |
| ProtocolSafety.StepKeepsInv | backend/go/internal/webapp/webapp.go:489-551 | any single event, a read, a form check, a conditional update, a rotation or an administrator's step, in any reachable state keeps the invariant and only adds to the recorded past |
| ProtocolRuns.SignedInUsersOweNoPasswordChange | backend/go/internal/webapp/webapp.go:2992-3012 | in every interleaving, a live authenticated session at its user's current version belongs to a user who owes no password change, though the guard does not look at that |
| ProtocolRuns.SecondFactorWasChecked | backend/go/internal/webapp/webapp.go:3288-3327 | in every interleaving, a current session past the password of a user with two-factor login descends from a session issued on an accepted code for the very secret in force |
| ProtocolRuns.GuardIsEnough | backend/go/internal/webapp/webapp.go:2992-3012 | whoever passes the guard is active, owes no password change and, with two-factor login, has had a code accepted |
| ProtocolRuns.VersionsNeverDecrease | backend/go/internal/authstore/store.go:94-151 | over any continuation of a run a user's version never goes down, and a deleted account does not come back |
| ProtocolRuns.CredentialsFollowTheVersion | backend/go/internal/authstore/store.go:94-151 | password hash, duty to change and second factor in force are a function of user and version over the whole run |
| ProtocolRuns.OneGrantPerVersion | backend/go/internal/authstore/store.go:108-151 | of all changes carrying one user and version at most one is ever granted |
| ProtocolRuns.StaleSessionsStayRefused | backend/go/internal/webapp/webapp.go:2992-3012 | a session left behind by a version change is refused in every continuation |
| ProtocolRuns.RunsExtend | backend/go/internal/authstore/store.go:94-151 | a longer run keeps every session issued, every credential recorded and every grant of a shorter one |
| ProtocolRuns.EditsThatEndSessions | backend/go/internal/authstore/admin.go:95-125 | an edit cuts off an accepted session if and only if it suspends the account or resets the second factor; requiring a second factor does not |
| ProtocolRuns.RunKeepsInv | backend/go/internal/webapp/webapp.go:489-551 | every run from the empty database keeps the invariant |
| ProtocolExample.RequiredFactorIsNotEnforced | backend/go/internal/authstore/admin.go:95-125 | a run in which an ordinary user signs in, changes the password, and stays accepted after the administrator asks for a second factor the user does not have |
| ProtocolExample.GuaranteesApply | backend/go/internal/webapp/webapp.go:489-551 | a run in which root signs in and switches two-factor login on: the sessions and grants the guarantees speak of do exist |
| Sessions.Saved | backend/go/internal/websession/persistence.go:115-126 | what a save writes: one record per live authenticated session, in the order of the identifiers |
| SessionManager.Manager.RemoveExpired | backend/go/internal/websession/session.go:225-231 | exactly the expired sessions leave the table |
| SessionManager.Manager.CreateLocked | backend/go/internal/websession/session.go:176-206 | within four draws a session under an unused identifier is added, or nothing is |
| SessionManager.Manager.Persist | backend/go/internal/websession/persistence.go:115-170 | with three outcomes: written, file and clock as they were, or the new file in place and a failure reported; what is written is exactly the live authenticated sessions in order, and a success is remembered by the clock at its end |
| SessionManager.Manager.Create | backend/go/internal/websession/session.go:73-91 | state and reply are those of the specification, with the roll-back when the save fails |
| SessionManager.Manager.Rotate | backend/go/internal/websession/session.go:93-119 | state and reply are those of the specification, with the old session put back on failure |
| SessionManager.Manager.Get | backend/go/internal/websession/session.go:121-135 | refreshes a live session and saves at most once a minute; drops an expired one |
| SessionManager.Manager.Destroy | backend/go/internal/websession/session.go:148-160 | removes the session, or puts it back when the save fails |
| SessionManager.Manager.Restart | backend/go/internal/websession/persistence.go:57-94 | loads the file, or refuses it whole on a bad, duplicate or surplus record |
| SessionSafety.StepKeepsSane | backend/go/internal/websession/session.go:73-160 | every call, whatever becomes of its save, keeps: capacity, key equal to identifier, valid tokens and identities, valid records without duplicate on disk |
| SessionSafety.StepKeepsInv | backend/go/internal/websession/session.go:73-160 | memory and disk are in step (every live signed-in session on disk, no live record without its session) after a call if and only if its save has not failed late, or has failed late on sessions for which it makes no difference |
| SessionSafety.LateStep | backend/go/internal/websession/persistence.go:153-167 | a late failure leaves memory and disk in step if and only if the session taken back is not live or is the one put back, and the one put back is not live or is in the file |
| SessionSafety.CreateStep | backend/go/internal/websession/session.go:73-91 | a creation leaves them out of step exactly when its save fails late on a session that is live |
| SessionSafety.RotateStep | backend/go/internal/websession/session.go:93-119 | a rotation leaves them in step exactly when its save does not fail late, or new and old session agree about what is on disk |
| SessionSafety.GetStep | backend/go/internal/websession/session.go:121-135 | a read keeps them in step whatever becomes of its save |
| SessionSafety.DestroyStep | backend/go/internal/websession/session.go:148-160 | a logout leaves them out of step exactly when its save fails late on a session that is not expired |
| SessionSafety.RestartBringsIntoStep | backend/go/internal/websession/persistence.go:57-94 | a restart brings memory and disk into step whatever state they were in |
| SessionSafety.SaveBringsIntoStep | backend/go/internal/websession/persistence.go:115-170 | so does a save that succeeds |
| SessionSafety.SavedExactly | backend/go/internal/websession/persistence.go:115-126 | a save holds exactly the live authenticated sessions, once each |
| SessionSafety.RestartLoads | backend/go/internal/websession/persistence.go:57-94 | a file the manager wrote is always accepted: valid tokens, ordered times, no duplicate, within capacity |
| SessionSafety.RestartRestores | backend/go/internal/websession/persistence.go:57-94 | a restart brings back only sessions that were in memory, with the same creation time and a last use no later than the one in memory |
| SessionRuns.RunKeepsSane | backend/go/internal/websession/session.go:73-160 | table and file stay sound after every run of calls, failed saves of either kind and restarts |
| SessionRuns.RunKeepsInv | backend/go/internal/websession/session.go:73-160 | memory and disk stay in step over every run in which no late failure makes a difference |
| SessionRuns.EmptyIsSound | backend/go/internal/websession/session.go:62-71 | a new manager starts from a state the invariant admits |
| SessionRuns.EndedSessionsNeverReturn | backend/go/internal/websession/persistence.go:57-94 | a session neither in memory nor live on disk never returns over any run, with saves that fail early or late and restarts, unless its random identifier is drawn again |
| SessionRuns.StaysAwayExactly | backend/go/internal/websession/persistence.go:57-94 | a session not in memory stays away over every run if and only if no live record of it is on disk |
| SessionRuns.RestartOpens | backend/go/internal/websession/persistence.go:57-94 | a restart opens a session if and only if a live record of it is on disk |
| SessionRuns.EndedForGood | backend/go/internal/websession/session.go:93-160 | a session whose logout or rotation was answered with success is gone for the rest of every run |
| SessionRuns.RotationReplaces | backend/go/internal/websession/session.go:93-119 | a rotation leaves exactly the old table without the old and the expired sessions, plus one fresh session with the identity asked for |
| SessionRuns.RotationFindsRoom | backend/go/internal/websession/session.go:93-119 | rotating a session still in the table is never refused for lack of room |
| SessionRuns.FailureChangesNothing | backend/go/internal/websession/session.go:73-160 | a refused or failed create, rotate or destroy agrees with the earlier table on every live session, and leaves the file alone unless its save failed late |
| SessionRuns.SaveThenRestart | backend/go/internal/websession/persistence.go:57-126 | saving and restarting at one clock reading gives back exactly the live authenticated sessions, unchanged |
| SessionRuns.LateCreationComesBack | backend/go/internal/websession/persistence.go:153-167 | a creation whose save fails late is answered with a failure and its session is not in memory, yet a restart opens it exactly when it is live |
| SessionRuns.FailedCreationOpens | backend/go/internal/websession/persistence.go:153-167 | from a fresh manager, at any time, a creation answered with a failure whose session the next start opens |
| SessionRuns.LateRotationComesBack | backend/go/internal/websession/persistence.go:153-167 | a rotation whose save fails late is answered with a failure, yet a restart opens the new session exactly when it is live and drops the old one that memory kept |
| SessionRuns.LateLogoutIsDropped | backend/go/internal/websession/persistence.go:153-167 | a logout whose save fails late is answered with a failure and memory keeps the session, yet a restart drops it |
| Base64.RoundTrip | backend/go/internal/domain/cron/manage.go:164-166 | section 5 of RFC 4648: decoding an encoded text gives the bytes back, for the strict and the lenient decoder |
| Base64.StrictDecodingIsInjective | backend/go/internal/websession/persistence.go:110-113 | a text the strict decoder accepts is exactly what encoding its bytes writes, so a token has one spelling only |
| CronText.NormalizeTwice | backend/go/internal/domain/cron/manage.go:162 | normalising is idempotent and keeps the fields |
| Utf8.RepairedExactly | backend/go/internal/domain/cron/cron.go:97-97 | the repair of text (each run of bytes that belong to no character becomes one U+FFFD) gives valid UTF-8 by section 4 of RFC 3629, is done once, and changes nothing if and only if the text is valid |
| Utf8.RepairAround | backend/go/internal/domain/cron/cron.go:97-97 | repair is done separately on either side of any ASCII character |
| CronEncoding.LinesAreRepaired | backend/go/internal/domain/cron/cron.go:97-97 | the editor gets each line of the file repaired on its own |
| CronEncoding.RenderIsUtf8 | backend/go/internal/domain/cron/manage.go:294-298 | an installed file is valid if and only if each of its lines is |
| CronText.RenderRoundTrip | backend/go/internal/domain/cron/manage.go:168-174 | splitting what was installed gives the lines back; only a single blank line is lost |
| CronText.TextRoundTrip | backend/go/internal/domain/cron/manage.go:164-166 | the payload of a suspended marker decodes to the line it was made from |
| CronSyntax.NewUuidIsUuid | backend/go/internal/domain/cron/manage.go:250-258 | every generated identifier is one the marker grammar accepts |
| CronSyntax.ActiveMarkerParses | backend/go/internal/domain/cron/manage.go:163 | an active marker reads back as its identifier |
| CronSyntax.SuspendedMarkerParses | backend/go/internal/domain/cron/manage.go:164-166 | a suspended marker reads back as its identifier and its line |
| CronSyntax.AcceptedInputParses | backend/go/internal/domain/cron/manage.go:152-161 | input the editor accepts makes a line that parses to exactly the normalised schedule and the trimmed command |
| CronParser.NextIsLocal | backend/go/internal/domain/cron/manage.go:180-228 | what is read at a line depends on the lines it spans only |
| CronParser.CutAppend | backend/go/internal/domain/cron/manage.go:176-230 | lines that can be read on their own can be followed by anything |
| CronParser.NumberLowers | backend/go/internal/domain/cron/manage.go:222-225 | one occurrence of a legacy task less lowers the numbers of its later twins and no other |
| CronParser.ShiftedAndLoweredAt | backend/go/internal/domain/cron/manage.go:222-228 | shifting and lowering act on each record on its own |
| CronEditor.Crontab.ParseRecords | backend/go/internal/domain/cron/manage.go:176-230 | the loop over the lines computes the records of the file |
| CronEditor.Crontab.FindRecord | backend/go/internal/domain/cron/manage.go:232-243 | the one record with the identifier; none when missing or ambiguous |
| CronEditor.Crontab.Manage | backend/go/internal/domain/cron/manage.go:35-148 | the file is the rendering of the edited lines of the repaired text, or untouched when the request is refused or the installation fails |
| CronEdits.EditKeepsOthers | backend/go/internal/domain/cron/manage.go:100-137 | update, suspend, resume and delete replace the record's lines and keep every other line as it was given; the file re-parses to the old records with only that one changed or removed and the later ones shifted, and fails to parse exactly when the edit activates a blank, comment or assignment line |
| CronContents.NewRecordSays | backend/go/internal/domain/cron/manage.go:115-134 | the new record has exactly the given schedule and command, or those it had |
| CronContents.InstalledEdit | backend/go/internal/domain/cron/manage.go:74-137 | the same for the installed file, read back through repair and splitting: whenever it can be read, if and only if it is valid, which it is unless a task is resumed whose payload is not; then it is read back with that line repaired |
| CronContents.OtherLinesKept | backend/go/internal/domain/cron/cron.go:97-97 | an edit keeps a line outside the record byte for byte if and only if the line is valid UTF-8; any other comes out repaired |
| CronContents.InstalledReads | backend/go/internal/domain/cron/manage.go:294-298 | reading the installed text is reading its lines, each repaired |
| CronContents.CreateAdds | backend/go/internal/domain/cron/manage.go:96-101 | a created task is read back after all old records with exactly the normalised schedule and trimmed command, if and only if its line is neither a comment nor an assignment; otherwise the whole file becomes unreadable |
| CronContents.InstalledCreate | backend/go/internal/domain/cron/manage.go:74-101 | the same for the installed file, read back through rendering, repair and splitting; that file is valid whatever was in the old one |
| CronContents.AcceptedInputIsLost | backend/go/internal/domain/cron/manage.go:152-161 | two accepted schedules, one that reads as a comment and one that reads as an assignment, and the file, whatever it held, that cannot be read any more |
| CronResume.SuspendThenResume | backend/go/internal/domain/cron/manage.go:123-132 | suspend then resume gives back every line as the editor got it, with the marker line trimmed; the whole file is restored if and only if it was valid UTF-8, ended in a line break and the marker line was trimmed |
| CronResume.DeleteUndoesCreate | backend/go/internal/domain/cron/manage.go:96-136 | deleting a task just created, under an identifier no other record has, gives the lines back as they were |
| CronResume.InstalledDelete | backend/go/internal/domain/cron/manage.go:74-136 | the same through the installed files; the file comes back if and only if it was valid UTF-8 and was empty or ended its lines with a line break |
| CronLister.Lister.ParseCrontab | backend/go/internal/domain/cron/jobs.go:210-289 | the check of the encoding and the loop with its pending marker append exactly the jobs of the file, or fail |
| CronAgreement.TrimmedJob | backend/go/internal/domain/cron/jobs.go:160-191 | parsing a trimmed task line gives the same schedule and the trimmed command, and fails exactly when the command is white space only |
| CronAgreement.ReadersAgree | backend/go/internal/domain/cron/jobs.go:210-289 | on every file the editing reader accepts, the listing fails when the file is not valid UTF-8 and else is its records in order, each as the task it is or, when it is active and names a periodic directory, as the scripts of that directory |
| CronAgreement.ListingFails | backend/go/internal/domain/cron/jobs.go:210-289 | the listing fails if and only if the file is not valid UTF-8, an active command is white space only, a managed active task names a periodic directory, or a directory that is needed cannot be read |
| CronAgreement.ListedTaskByTask | backend/go/internal/domain/cron/jobs.go:210-289 | task by task: what comes before, then equal identifier, schedule, state and last line and equal trimmed command, or the scripts, then what comes after |
| CronAgreement.BlankCommandIsNotListed | backend/go/internal/domain/cron/jobs.go:160-191 | a file of one line, accepted for editing, whose listing fails |
| CronAgreement.LatinCommentIsNotListed | backend/go/internal/domain/cron/jobs.go:215-217 | a file of one comment in another encoding: accepted for editing, with the comment rewritten and no task, while its listing fails |
| CronAgreement.CreatedIsListed | backend/go/internal/domain/cron/jobs.go:210-289 | the file a creation leaves lists the new task after all those of the repaired file; when its command names a periodic directory the whole listing fails |
| CronAcceptance.ListedIsEditable | backend/go/internal/domain/cron/manage.go:199-210 | a file that can be listed is accepted for editing if and only if every active marker has its task on the very next line |
| CronAcceptance.LooseMarkerIsNotEditable | backend/go/internal/domain/cron/jobs.go:223-262 | a file with a blank line between a marker and its task: listed, and refused for editing |
| CronAcceptance.ResumedIsNotListed | backend/go/internal/domain/cron/manage.go:130-133 | a suspended task whose payload holds a byte of another encoding is listed, and once it is resumed the whole file is not |
| Devices.Walk.Collect | backend/go/internal/domain/storage/storage.go:257-281 | the recursive walk ends on any graph; what it newly visits is reachable and closed under edges into the visited nodes, and exactly the names of new leaves are added |
| Devices.CollectAll | backend/go/internal/domain/storage/storage.go:257-281 | from empty sets the visited nodes are exactly the reachable ones and the devices exactly the names of reachable leaves |
| Devices.ResolvePhysicalDevices | backend/go/internal/domain/storage/storage.go:239-255 | the text is the sorted listing of those devices; empty for what is no device |
| Devices.OrderIsIrrelevant | backend/go/internal/domain/storage/storage.go:268-274 | the order in which slaves are listed does not show |
| DifferenceRows.IndexersAreLight | backend/go/internal/webapp/configuration.go:526-589 | every index files an item no higher than itself, except that a string may become an object: the reason a list must weigh more than an object |
| DifferenceRows.PairedIsBounded | backend/go/internal/webapp/configuration.go:387-431 | the members of any pairing weigh less than the lists they come from |
| DifferenceReport.IndexItems | backend/go/internal/webapp/configuration.go:455-492 | the loop files every item or gives up, as the fold over the items |
| DifferenceReport.PairItems | backend/go/internal/webapp/configuration.go:387-431 | the indexes are tried in order; the first that works for both lists is used |
| DifferenceReport.Report.Render | backend/go/internal/webapp/configuration.go:358-452 | the recursion over the shared builder ends on every pair of values and appends exactly the rows of the specification |
| DifferenceLaws.RowsDiffer | backend/go/internal/webapp/configuration.go:358-452 | every row shows two unequal values |
| DifferenceLaws.SwapSymmetry | backend/go/internal/webapp/configuration.go:358-452 | swapping source and target gives the same rows with the two value columns swapped |
| DifferenceLaws.NoObjectRows | backend/go/internal/webapp/configuration.go:358-383 | an object with fields and any other value have no row if and only if no field of either has one, a missing field read as null |
| DifferenceLaws.NoRowByLeaves | backend/go/internal/webapp/configuration.go:358-383 | any two values have no row if and only if there is none at any path of fields where neither has fields to go on to |
| DifferenceLaws.NoRowMeansSameLeaves | backend/go/internal/webapp/configuration.go:358-383 | on values without lists there is no row if and only if the values are equal at every such path |
| DifferenceLaws.NoRowMeansEqual | backend/go/internal/webapp/configuration.go:358-383 | so on values without lists and nulls there is no row if and only if they are equal |
| DifferenceLimits.NullReadsAsMissing | backend/go/internal/webapp/configuration.go:379-381 | a field set to null is not told from a missing one, whatever the other fields hold |
| DifferenceLimits.HollowIsLike | backend/go/internal/webapp/configuration.go:358-383 | an object of one null field shows no difference from any scalar or empty object |
| DifferenceLimits.NoRowIsNotTransitive | backend/go/internal/webapp/configuration.go:358-383 | three values: no row between the first and either other, and a row between those two |
| DifferenceLimits.ScalarListsAreSets | backend/go/internal/webapp/configuration.go:387-431 | two values paired as scalars, lists or a list and a scalar of any kind, show no row if and only if they are equal or no key is filed on one side only for anything but a null |
| DifferenceLimits.EmptyListShowsNothing | backend/go/internal/webapp/configuration.go:387-404 | an empty list shows no difference from another one or from any value that is neither list nor object: both are paired as scalars, and the row that would name two lengths is never reached |
| DifferenceLimits.BareListsAreSets | backend/go/internal/webapp/configuration.go:417-431 | lists of booleans and numbers show no row if and only if they are equal or have the same set of encodings |
| DifferenceLimits.RepetitionDoesNotShow | backend/go/internal/webapp/configuration.go:796-829 | two different lists without a row |
| DifferenceLimits.NoPairedRows | backend/go/internal/webapp/configuration.go:387-431 | lists whose items are paired, in whatever way, show no row if and only if they are equal or no key shows anything |
| DifferenceLists.HeldValueShows | backend/go/internal/webapp/configuration.go:358-383 | a value that holds a text, a boolean or a number under any path of fields always shows a row against a missing one |
| DifferenceLists.OneSidedItemShows | backend/go/internal/webapp/configuration.go:387-431 | so an item that holds one of these and is added or removed under a key of its own is never hidden |
| DifferenceLists.OrderDoesNotShow | backend/go/internal/webapp/configuration.go:387-416 | two lists of the same items, paired by virtual host, listener, firewall rule, scheduled task or identifying field, show no row whatever their order, provided that no two virtual hosts share file, name and port |
| DifferenceLists.HostOrderShows | backend/go/internal/webapp/configuration.go:454-490 | two virtual hosts that share file, name and port and stand on different lines show a row when they change places |
| DifferenceLists.TwoSuchHosts | backend/go/internal/webapp/configuration.go:454-490 | two such hosts |
| Places.MoveIsAdjacentSwap | backend/go/internal/authstore/navigation_admin.go:164-205 | with distinct positions a move succeeds unless the row is at that end, and is one adjacent swap of the displayed order |
| Places.MoveBack | backend/go/internal/authstore/navigation_admin.go:164-205 | with distinct positions the opposite move restores every position |
| Places.Move | backend/go/internal/authstore/navigation_admin.go:164-205 | the move of one row, by the nearest row on that side |
| Navigation.NextAmong | backend/go/internal/authstore/navigation_admin.go:69-73 | one more than the highest position, zero without rows |
| NavigationOrder.ReorderPlaces | backend/go/internal/authstore/navigation_admin.go:136-157 | after n categories each is at its index, each listed module in its category at its index, and nothing else has moved |
| NavigationOrder.ReorderReadsBack | backend/go/internal/authstore/navigation_admin.go:39-68 | after an accepted reordering the page shows exactly the submitted order |
| NavigationOrder.ReorderIsSound | backend/go/internal/authstore/navigation_admin.go:96-163 | an accepted reordering leaves distinct positions whatever they were before |
| NavigationRuns.ChangeKeepsSound | backend/go/internal/authstore/navigation_admin.go:24-163 | every change, successful or refused, keeps positions distinct per category and modules in known categories |
| NavigationRuns.RunKeepsSound | backend/go/internal/authstore/navigation_admin.go:24-163 | so does every run of changes |
| NavigationRuns.MoveCategoryShows | backend/go/internal/authstore/navigation_admin.go:86-88 | moving a category exchanges it with the next one on the page, lists and all; refused exactly at that end |
| NavigationRuns.MoveModuleShows | backend/go/internal/authstore/navigation_admin.go:89-95 | moving a module swaps it with its neighbour in its own list; every other list is as before |
| NavigationRuns.MoveCategoryBack | backend/go/internal/authstore/navigation_admin.go:86-88 | the opposite move undoes a move of a category |
| NavigationRuns.MoveModuleBack | backend/go/internal/authstore/navigation_admin.go:89-95 | the opposite move undoes a move of a module |
| NavigationRuns.CreatedIsLast | backend/go/internal/authstore/navigation_admin.go:69-73 | a new category is shown last and empty |
| NavigationAdmin.Navigator.ReorderNavigation | backend/go/internal/authstore/navigation_admin.go:96-163 | succeeds if and only if the order is complete: one to a hundred categories, each known one once and with a list, every known module once; a refusal changes nothing |
| NavigationAdmin.Navigator.MoveCategoryBy | backend/go/internal/authstore/navigation_admin.go:86-88 | the tables after the move, or unchanged when it is refused |
| NavigationAdmin.Navigator.MoveModuleBy | backend/go/internal/authstore/navigation_admin.go:89-95 | the same within the module's category |
| NavigationAdmin.Navigator.Create | backend/go/internal/authstore/navigation_admin.go:69-73 | a category behind all others, refused when the name is not of 2 to 64 characters without outer spaces or is taken in any letter case |
| NavigationAdmin.Navigator.Delete | backend/go/internal/authstore/navigation_admin.go:78-81 | removes a category only when it has no modules |
| NavigationPage.GroupsOfJoined | backend/go/internal/authstore/navigation_admin.go:48-66 | grouping the joined rows of a page gives the page |
| NavigationPage.QueryGivesThePage | backend/go/internal/authstore/navigation_admin.go:40-40 | rows are every row of the left join, once, none before one that sorts ahead by category position, category, module position and module, if and only if they are the rows of the page in its order |
| NavigationPage.AdminNavigation | backend/go/internal/authstore/navigation_admin.go:39-68 | whatever rows the query returns under that promise, the loop builds the categories in order, each with its modules in order |
| Capture.AppendOutput | backend/libexec/certbot-runner.py:463-477 | keeps what fits of a chunk and tells whether something was dropped |
| Capture.Reader.ReadCertbot | backend/libexec/certbot-runner.py:571-667 | rounds until both streams end, then what is waiting after a timeout: buffers, count and flag are those of the bytes read so far |
| Capture.Reader.ReadCron | backend/libexec/cron-runner.py:231-269 | the same for the cron runner, which does not drain after a timeout |
| Capture.CapturedPrefixes | backend/libexec/certbot-runner.py:591-667 | each buffer is a prefix of what its stream sent, and together they hold the smaller of the bytes read and the limit |
| Capture.CaptureCertbot | backend/libexec/certbot-runner.py:591-667 | with the limit of 128 KiB: prefixes of both streams, everything when it fits, exactly the limit otherwise, and the flag if and only if more was read |
| Capture.CaptureCron | backend/libexec/cron-runner.py:236-269 | the same with the limit of 64 KiB |

## Left out

- Accounts.Store.UpdateAdminUser: names and e-mail addresses are not modelled; that they fit is an input, and so is the set of modules that can be assigned.
- Accounts.Store.CreateAdminUser: the same.
- ProtocolRuns.SecondFactorWasChecked: a code check is an accepted or refused input; the arithmetic of one-time codes is not modelled.
- ProtocolSafety.StepKeepsInv: rate limiters, request tokens and form parsing only ever end a request, which is one event; restoring a database, which may lower versions, is not an event.
- SessionManager.Manager.Persist: which of the three outcomes a save has is an input; the JSON encoding, the file mode checks and the 16 MB limit on the file are not modelled.
- SessionManager.Manager.Restart: a crash between the steps of one call is not modelled; a restart falls between calls.
- CronSyntax.AcceptedInputParses: the limits of 128 and 8192 characters are left out; they only make the set of accepted inputs smaller.
- CronEditor.Crontab.Manage: locking, backups, the user checks and the crontab command itself are one outcome, accepted or not; running a task at once is not modelled.
- CronLister.Lister.ParseCrontab: system crontabs, anacron and the final sorting of all jobs are not modelled; the scripts of a periodic directory are an input.
- DifferenceReport.Report.Render: the wording of labels and the HTML are not modelled; a row carries the path of members it was reached by.
- NavigationAdmin.Navigator.MoveModuleBy: the category is read in the same step as the move, not in a query before it.
- NavigationPage.AdminNavigation: the names, routes and flags in a row are not modelled, only its category and module.
- Capture.Reader.ReadCertbot: processes, selectors, time and the decoding of the captured bytes are not modelled.
- Renaming categories and switching modules on and off: neither touches an order.
- Apache, firewall, certificate and systemd commands, the socket server and client, and all user interface.
