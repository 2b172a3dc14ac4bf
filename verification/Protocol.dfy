/** Login, two-factor and password handlers over versioned accounts, freely interleaved.

    A handler reads its session, then the user row, then checks the form, then asks
    the store for a conditional update, then rotates its session. Every one of these
    is its own event, so any other event can fall in between.
 */
module Protocol {
  import opened Names
  import opened Wrappers
  import opened Accounts

  // ---------- The decision after a login (authentication.go) ----------

  datatype Step = Invalid | SignedIn | PasswordChange | Challenge | Enrollment

  function Authenticate(found: Option<User>, password: string): Step {
    if found.None? || !Verifies(password, found.value.hash) || found.value.status != Active then Invalid
    else NextStep(found.value)
  }

  /** What an active user still has to do once the password has been verified. */
  function NextStep(u: User): Step {
    if u.secret.Some? && u.enabled then Challenge
    else if u.required then Enrollment
    else if u.mustChange then PasswordChange
    else SignedIn
  }

  datatype SessionState = Anonymous | Password | TwoFactor | TwoFactorSetup | Authenticated

  function NextState(step: Step): SessionState {
    match step
    case PasswordChange => Password
    case Challenge => TwoFactor
    case Enrollment => TwoFactorSetup
    case _ => Authenticated
  }

  // ---------- State ----------

  /** A one-time code accepted for this user's secret. */
  datatype Check = Check(user: nat, secret: string)

  /** A session as it was issued: whom it names, which session it replaced, which code it rests on. */
  datatype Issue = Issue(state: SessionState, user: nat, version: nat, parent: Option<nat>, checked: Option<Check>)

  datatype Handler =
    | LogIn | VerifyTwoFactor | ChangePassword | ConfirmEnrollment
    | PrepareAccount | ConfirmAccount | DisableAccount | LogOut

  datatype Stage =
    | Opened
    | Looked(user: User)
    | Accepted(user: User)
    | Stored(user: User)

  /** A request in flight: the session it opened, how far it got, the hash and code it was given. */
  datatype Flight = Flight(handler: Handler, sid: nat, stage: Stage, newHash: Hash, checked: Option<Check>)

  /** A conditional update that succeeded, with the version its caller carried. */
  datatype Grant = Grant(user: nat, version: nat)

  /** `issued`, `history` and `granted` only record; no handler reads them except its own issue. */
  datatype World = World(
    users: Users, lastId: nat, live: set<nat>, flights: map<nat, Flight>,
    issued: seq<Issue>, history: map<(nat, nat), Credentials>, granted: seq<Grant>)

  datatype Form = Form(login: string, password: string, newPassword: string, salt: nat, codeAccepted: bool)

  datatype Administration =
    | CreateUser(login: string, hash: Hash, required: bool)
    | CreateRoot(hash: Hash)
    | EditUser(id: nat, login: string, status: Status, required: bool, reset: bool)
    | ResetPassword(id: nat, hash: Hash)
    | ResetRoot(id: nat, hash: Hash)
    | DisableRoot(id: nat)
    | DeleteUser(id: nat)

  datatype Event =
    | Visit
    | Open(flight: nat, handler: Handler, sid: nat)
    | Look(flight: nat, form: Form, found: nat)
    | Prepare(flight: nat, secret: string)
    | Submit(flight: nat, form: Form)
    | Update(flight: nat)
    | Finish(flight: nat)
    | Abandon(flight: nat)
    | Lose(sids: set<nat>)
    | Administer(what: Administration)

  // ---------- Steps ----------

  const START: World := World(map[], 0, {}, map[], [], map[], [])

  function Put(w: World, after: Option<User>): World {
    if after.None? then w
    else w.(users := Write(w.users, after),
            history := w.history[(after.value.id, after.value.version) := CredentialsOf(after.value)])
  }

  function At(w: World, k: nat, stage: Stage): World
    requires k in w.flights
  {
    w.(flights := w.flights[k := w.flights[k].(stage := stage)])
  }

  function Ended(w: World, k: nat): World {
    w.(flights := w.flights - {k})
  }

  /** The handler destroys its session and answers with the login page. */
  function Refused(w: World, k: nat): World
    requires k in w.flights
  {
    Ended(w.(live := w.live - {w.flights[k].sid}), k)
  }

  /** Rotation: the handler's session makes way for a new one that names it as parent. */
  function Rotated(w: World, k: nat, state: SessionState, u: User): World
    requires k in w.flights
  {
    var f := w.flights[k];
    Ended(w.(issued := w.issued + [Issue(state, u.id, u.version, Some(f.sid), f.checked)],
             live := w.live - {f.sid} + {|w.issued|}), k)
  }

  /** The states in which a handler lets its session through. */
  predicate Admits(h: Handler, s: SessionState) {
    match h
    case LogIn => s == Anonymous
    case VerifyTwoFactor => s == TwoFactor
    case ConfirmEnrollment => s == TwoFactorSetup
    case ChangePassword => s == Password || s == Authenticated
    case _ => s == Authenticated
  }

  /** authenticatedUser, passwordUser, pendingTwoFactorUser, pendingEnrollmentUser: the row test. */
  predicate Passes(h: Handler, s: Issue, row: Option<User>) {
    && row.Some? && row.value.status == Active && row.value.version == s.version
    && match h
       case ChangePassword => s.state == Password ==> row.value.mustChange
       case VerifyTwoFactor => row.value.secret.Some? && row.value.enabled
       case ConfirmEnrollment => row.value.required && !row.value.enabled
       case _ => true
  }

  /** The check on the submitted form, made on the row as it was read. */
  predicate Submitted(h: Handler, u: User, form: Form) {
    match h
    case ChangePassword => Verifies(form.password, u.hash) && !Verifies(form.newPassword, u.hash)
    case DisableAccount => !u.required && u.secret.Some? && u.enabled && form.codeAccepted
    case _ => u.secret.Some? && form.codeAccepted
  }

  function LookUp(w: World, k: nat, form: Form, found: nat): World
    requires k in w.flights && w.flights[k].sid < |w.issued|
  {
    var f, s := w.flights[k], w.issued[w.flights[k].sid];
    if f.handler == LogIn then
      var row := Row(w.users, found);
      var matched := if row.Some? && SameName(row.value.login, form.login) then row else None;
      if Authenticate(matched, form.password) == Invalid then Ended(w, k) else At(w, k, Accepted(row.value))
    else
      var row := Row(w.users, s.user);
      if !Passes(f.handler, s, row) then Refused(w, k) else At(w, k, Looked(row.value))
  }

  /** The conditional update the handler asks for; `None` when it asks for none or is refused. */
  function Requested(w: World, f: Flight, u: User): Option<User> {
    var row := Row(w.users, u.id);
    match f.handler
    case ChangePassword => PasswordChanged(row, u.version, u.hash, f.newHash)
    case DisableAccount => Disabled(row, u.version)
    case ConfirmEnrollment => if u.secret.Some? then Enabled(row, u.version, u.secret.value) else None
    case ConfirmAccount => if u.secret.Some? then Enabled(row, u.version, u.secret.value) else None
    case _ => None
  }

  predicate Updates(h: Handler) {
    h in {ChangePassword, DisableAccount, ConfirmEnrollment, ConfirmAccount}
  }

  /** The state a handler rotates into from the row it holds. */
  function Target(h: Handler, u: User): SessionState {
    match h
    case LogIn => NextState(NextStep(u))
    case VerifyTwoFactor => if u.mustChange then Password else Authenticated
    case ConfirmEnrollment => if u.mustChange then Password else Authenticated
    case _ => Authenticated
  }

  function Administered(w: World, what: Administration): World {
    match what
    case CreateUser(login, hash, required) =>
      if !LoginFits(login) || exists u | u in w.users :: SameName(w.users[u].login, login) then w
      else Put(w.(lastId := w.lastId + 1), Some(NewUser(w.lastId + 1, login, hash, required)))
    case CreateRoot(hash) =>
      if exists u | u in w.users :: SameName(w.users[u].login, "root") || w.users[u].kind == Root then w
      else Put(w.(lastId := w.lastId + 1), Some(NewRoot(w.lastId + 1, hash)))
    case EditUser(id, login, status, required, reset) =>
      if !LoginFits(login) || exists u | u in w.users :: u != id && SameName(w.users[u].login, login) then w
      else Put(w, Accounts.Updated(Row(w.users, id), login, status, required, reset))
    case ResetPassword(id, hash) => Put(w, PasswordReset(Row(w.users, id), hash))
    case ResetRoot(id, hash) => Put(w, RootPasswordReset(Row(w.users, id), hash))
    case DisableRoot(id) => Put(w, RootFactorDisabled(Row(w.users, id)))
    case DeleteUser(id) =>
      if id in w.users && w.users[id].kind == Ordinary then w.(users := w.users - {id}) else w
  }

  /** Sessions that are live or held by a request have been issued. */
  predicate Formed(w: World) {
    (forall k | k in w.flights :: w.flights[k].sid < |w.issued|) && forall s | s in w.live :: s < |w.issued|
  }

  function Apply(w: World, e: Event): World
    requires Formed(w)
  {
    match e
    case Visit =>
      w.(issued := w.issued + [Issue(Anonymous, 0, 0, None, None)], live := w.live + {|w.issued|})
    case Open(k, h, sid) =>
      if k in w.flights || sid !in w.live then w
      else if !Admits(h, w.issued[sid].state) then (if h == LogIn then w else w.(live := w.live - {sid}))
      else w.(flights := w.flights[k := Flight(h, sid, Opened, Hash("", 0), None)])
    case Look(k, form, found) =>
      if k in w.flights && w.flights[k].stage.Opened? && w.flights[k].handler != LogOut then LookUp(w, k, form, found) else w
    case Prepare(k, secret) =>
      if k in w.flights && w.flights[k].stage.Looked? && w.flights[k].stage.user.secret.None?
         && (w.flights[k].handler == ConfirmEnrollment
             || (w.flights[k].handler == PrepareAccount && !w.flights[k].stage.user.enabled)) then
        var u := w.flights[k].stage.user;
        var after := Prepared(Row(w.users, u.id), u.version, secret);
        if after.Some? then At(Put(w, after), k, Looked(after.value))
        else if w.flights[k].handler == ConfirmEnrollment then Refused(w, k)
        else Ended(w, k)
      else w
    case Submit(k, form) =>
      if k in w.flights && w.flights[k].stage.Looked?
         && (Updates(w.flights[k].handler) || w.flights[k].handler == VerifyTwoFactor) then
        var f, u := w.flights[k], w.flights[k].stage.user;
        if !Submitted(f.handler, u, form) then Ended(w, k)
        else
          var checked := if f.handler == ChangePassword then None else Some(Check(u.id, u.secret.value));
          w.(flights := w.flights[k := Flight(f.handler, f.sid, Accepted(u), Hash(form.newPassword, form.salt), checked)])
      else w
    case Update(k) =>
      if k in w.flights && w.flights[k].stage.Accepted? && Updates(w.flights[k].handler) then
        var f, u := w.flights[k], w.flights[k].stage.user;
        var after := Requested(w, f, u);
        if after.Some? then
          At(Put(w, after).(granted := w.granted + [Grant(u.id, u.version)]), k, Stored(after.value))
        else if f.handler == ChangePassword || f.handler == ConfirmEnrollment then Refused(w, k)
        else Ended(w, k)
      else w
    case Finish(k) =>
      if k !in w.flights then w
      else
        var f := w.flights[k];
        if f.handler == LogOut then Refused(w, k)
        else if f.stage.Stored? || (f.stage.Accepted? && !Updates(f.handler)) then
          Rotated(w, k, Target(f.handler, f.stage.user), f.stage.user)
        else w
    case Abandon(k) => Ended(w, k)
    case Lose(sids) => w.(live := w.live - sids)
    case Administer(what) => Administered(w, what)
  }
}
