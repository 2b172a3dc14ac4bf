/** Runs that reach what the guarantees speak of: root switches two-factor login on and goes on under a
    session that rests on an accepted code; an ordinary user outlives the demand for a second factor. */
module ProtocolExample {
  import opened Names
  import opened Wrappers
  import opened Accounts
  import opened Protocol
  import opened ProtocolRuns

  /** The only flight there is. */
  function With(w: World, f: Flight): World {
    w.(flights := map[0 := f])
  }

  ghost predicate Idle(w: World, done: seq<Event>) {
    Run(done) == w && w.flights == map[]
  }

  ghost predicate Busy(w: World, f: Flight, done: seq<Event>) {
    Run(done) == With(w, f) && w.flights == map[] && f.sid < |w.issued|
  }

  lemma Visits(done: seq<Event>, w: World) returns (events: seq<Event>, after: World)
    requires Idle(w, done)
    ensures Idle(after, events) && |w.issued| in after.live
    ensures after == w.(issued := w.issued + [Issue(Anonymous, 0, 0, None, None)], live := w.live + {|w.issued|})
  {
    events := done + [Visit];
    after := w.(issued := w.issued + [Issue(Anonymous, 0, 0, None, None)], live := w.live + {|w.issued|});
    RunOneMore(done, Visit);
  }

  lemma Opens(done: seq<Event>, w: World, h: Handler, sid: nat) returns (events: seq<Event>, f: Flight)
    requires Idle(w, done) && sid in w.live && sid < |w.issued| && Admits(h, w.issued[sid].state)
    ensures f == Flight(h, sid, Opened, Hash("", 0), None) && Busy(w, f, events)
  {
    events := done + [Open(0, h, sid)];
    f := Flight(h, sid, Opened, Hash("", 0), None);
    RunOneMore(done, Open(0, h, sid));
  }

  lemma LogsIn(done: seq<Event>, w: World, f: Flight, form: Form, id: nat) returns (events: seq<Event>, next: Flight)
    requires Busy(w, f, done) && f.handler == LogIn && f.stage.Opened?
    requires id in w.users && SameName(w.users[id].login, form.login) && Authenticate(Row(w.users, id), form.password) != Invalid
    ensures next == f.(stage := Accepted(w.users[id])) && Busy(w, next, events)
  {
    events := done + [Look(0, form, id)];
    next := f.(stage := Accepted(w.users[id]));
    RunOneMore(done, Look(0, form, id));
  }

  lemma LooksUp(done: seq<Event>, w: World, f: Flight, form: Form) returns (events: seq<Event>, next: Flight)
    requires Busy(w, f, done) && f.handler != LogIn && f.handler != LogOut && f.stage.Opened?
    requires Passes(f.handler, w.issued[f.sid], Row(w.users, w.issued[f.sid].user))
    ensures next == f.(stage := Looked(w.users[w.issued[f.sid].user])) && Busy(w, next, events)
  {
    events := done + [Look(0, form, 0)];
    next := f.(stage := Looked(w.users[w.issued[f.sid].user]));
    RunOneMore(done, Look(0, form, 0));
  }

  lemma Prepares(done: seq<Event>, w: World, f: Flight, secret: string) returns (events: seq<Event>, after: World)
    requires Busy(w, f, done) && f.handler == PrepareAccount && f.stage.Looked?
    requires f.stage.user.secret.None? && !f.stage.user.enabled
    requires Prepared(Row(w.users, f.stage.user.id), f.stage.user.version, secret).Some?
    ensures Idle(after, events) && after == Put(w, Prepared(Row(w.users, f.stage.user.id), f.stage.user.version, secret))
  {
    var row := Prepared(Row(w.users, f.stage.user.id), f.stage.user.version, secret);
    after := Put(w, row);
    var there := With(after, f.(stage := Looked(row.value)));
    RunOneMore(done, Prepare(0, secret));
    assert Run(done + [Prepare(0, secret)]) == there;
    events := done + [Prepare(0, secret)] + [Abandon(0)];
    RunOneMore(done + [Prepare(0, secret)], Abandon(0));
    assert there.flights - {0} == map[];
  }

  lemma Submits(done: seq<Event>, w: World, f: Flight, form: Form) returns (events: seq<Event>, next: Flight)
    requires Busy(w, f, done) && f.stage.Looked? && Updates(f.handler) && Submitted(f.handler, f.stage.user, form)
    ensures Busy(w, next, events) && next == Flight(f.handler, f.sid, Accepted(f.stage.user), Hash(form.newPassword, form.salt),
              if f.handler == ChangePassword then None else Some(Check(f.stage.user.id, f.stage.user.secret.value)))
  {
    events := done + [Submit(0, form)];
    next := Flight(f.handler, f.sid, Accepted(f.stage.user), Hash(form.newPassword, form.salt),
                   if f.handler == ChangePassword then None else Some(Check(f.stage.user.id, f.stage.user.secret.value)));
    RunOneMore(done, Submit(0, form));
  }

  lemma Stores(done: seq<Event>, w: World, f: Flight) returns (events: seq<Event>, after: World, next: Flight)
    requires Busy(w, f, done) && f.stage.Accepted? && Updates(f.handler) && Requested(w, f, f.stage.user).Some?
    ensures var row := Requested(w, f, f.stage.user);
            && after == Put(w, row).(granted := w.granted + [Grant(f.stage.user.id, f.stage.user.version)])
            && next == f.(stage := Stored(row.value)) && Busy(after, next, events)
  {
    var row := Requested(w, f, f.stage.user);
    assert Requested(With(w, f), f, f.stage.user) == row;
    after := Put(w, row).(granted := w.granted + [Grant(f.stage.user.id, f.stage.user.version)]);
    next := f.(stage := Stored(row.value));
    events := done + [Update(0)];
    RunOneMore(done, Update(0));
  }

  lemma Finishes(done: seq<Event>, w: World, f: Flight) returns (events: seq<Event>, after: World, sid: nat)
    requires Busy(w, f, done) && f.handler != LogOut && (f.stage.Stored? || (f.stage.Accepted? && !Updates(f.handler)))
    ensures sid == |w.issued| && sid in after.live && Idle(after, events)
    ensures var u := f.stage.user;
            after == w.(issued := w.issued + [Issue(Target(f.handler, u), u.id, u.version, Some(f.sid), f.checked)],
                        live := w.live - {f.sid} + {sid})
  {
    sid := |w.issued|;
    var u := f.stage.user;
    after := w.(issued := w.issued + [Issue(Target(f.handler, u), u.id, u.version, Some(f.sid), f.checked)],
                live := w.live - {f.sid} + {sid});
    events := done + [Finish(0)];
    RunOneMore(done, Finish(0));
    assert With(w, f).flights - {0} == map[];
  }

  /** From a visit to the session that the password earns. */
  lemma SignsIn(done: seq<Event>, w: World, u: User) returns (events: seq<Event>, after: World, sid: nat)
    requires Idle(w, done) && u.id in w.users && w.users[u.id] == u && u.status == Active
    ensures Idle(after, events) && sid in after.live && sid < |after.issued|
    ensures after == w.(issued := after.issued, live := after.live)
    ensures var s := after.issued[sid]; s.state == NextState(NextStep(u)) && s.user == u.id && s.version == u.version
  {
    var visited, f;
    events, visited := Visits(done, w);
    events, f := Opens(events, visited, LogIn, |w.issued|);
    events, f := LogsIn(events, visited, f, Form(u.login, u.hash.password, "", 0, false), u.id);
    events, after, sid := Finishes(events, visited, f);
  }

  lemma RootSignsIn(hash: Hash) returns (events: seq<Event>, w: World, sid: nat)
    ensures Idle(w, events) && sid in w.live && sid < |w.issued|
    ensures w.users == map[1 := NewRoot(1, hash)] && w.granted == []
    ensures w.issued[sid].state == Authenticated && w.issued[sid].user == w.issued[sid].version == 1
  {
    events := [Administer(CreateRoot(hash))];
    w := Put(START.(lastId := 1), Some(NewRoot(1, hash)));
    RunOneMore([], Administer(CreateRoot(hash)));
    assert [] + events == events;
    events, w, sid := SignsIn(events, w, NewRoot(1, hash));
  }

  ghost predicate Belongs(w: World, sid: nat, u: User) {
    && sid in w.live && sid < |w.issued| && w.issued[sid].user == u.id && w.issued[sid].version == u.version
    && u.id in w.users && w.users[u.id] == u && u.status == Active
  }

  /** From a session to the form its handler accepts. */
  lemma Asks(done: seq<Event>, w: World, h: Handler, sid: nat, u: User, form: Form) returns (events: seq<Event>, f: Flight)
    requires Idle(w, done) && Belongs(w, sid, u) && Updates(h) && Admits(h, w.issued[sid].state)
    requires Passes(h, w.issued[sid], Some(u)) && Submitted(h, u, form)
    ensures Busy(w, f, events) && f.handler == h && f.sid == sid && f.stage == Accepted(u)
    ensures f.newHash == Hash(form.newPassword, form.salt)
  {
    events, f := Opens(done, w, h, sid);
    events, f := LooksUp(events, w, f, form);
    events, f := Submits(events, w, f, form);
  }

  /** From an accepted form to the session that takes over. */
  lemma Concludes(done: seq<Event>, w: World, f: Flight, u: User, row: User)
      returns (events: seq<Event>, after: World, sid: nat)
    requires Busy(w, f, done) && f.stage == Accepted(u) && Updates(f.handler) && f.handler != ConfirmEnrollment
    requires Requested(w, f, u) == Some(row) && row.status == Active
    ensures Idle(after, events) && Belongs(after, sid, row) && after.issued[sid].state == Authenticated
    ensures after.users == w.users[row.id := row] && after.granted == w.granted + [Grant(u.id, u.version)]
  {
    var next;
    events, after, next := Stores(done, w, f);
    events, after, sid := Finishes(events, after, next);
  }

  lemma PreparesSecret(done: seq<Event>, w: World, sid: nat, u: User, secret: string)
      returns (events: seq<Event>, after: World)
    requires Idle(w, done) && Belongs(w, sid, u) && w.issued[sid].state == Authenticated && u.secret.None? && !u.enabled
    ensures Idle(after, events) && Belongs(after, sid, u.(secret := Some(secret))) && after.issued == w.issued
    ensures after.users == w.users[u.id := u.(secret := Some(secret))] && after.granted == w.granted
  {
    var f;
    events, f := Opens(done, w, PrepareAccount, sid);
    events, f := LooksUp(events, w, f, Form("", "", "", 0, false));
    events, after := Prepares(events, w, f, secret);
  }

  /** A secret prepared and confirmed with a code. */
  lemma SwitchesOn(done: seq<Event>, w: World, sid: nat, u: User, secret: string)
      returns (events: seq<Event>, after: World, next: nat)
    requires Idle(w, done) && Belongs(w, sid, u) && w.issued[sid].state == Authenticated && u.secret.None? && !u.enabled
    ensures Idle(after, events) && after.granted == w.granted + [Grant(u.id, u.version)]
    ensures Belongs(after, next, u.(secret := Some(secret), enabled := true, version := u.version + 1))
    ensures after.issued[next].state == Authenticated
  {
    var f: Flight;
    var v := u.(secret := Some(secret));
    events, after := PreparesSecret(done, w, sid, u, secret);
    events, f := Asks(events, after, ConfirmAccount, sid, v, Form("", "", "", 0, true));
    events, after, next := Concludes(events, after, f, v, v.(enabled := true, version := u.version + 1));
  }

  /** Sessions the guard accepts do exist, with and without two-factor login, and so do grants. */
  lemma GuaranteesApply() returns (events: seq<Event>, more: seq<Event>, sid: nat, next: nat)
    ensures Current(Run(events), sid) && AuthenticatedUser(Run(events), sid) == Some(NewRoot(1, Hash("p", 0)))
    ensures Current(Run(more), next) && AuthenticatedUser(Run(more), next).Some? && AuthenticatedUser(Run(more), next).value.enabled
    ensures Run(more).granted == [Grant(1, 1)]
  {
    var w, v;
    events, w, sid := RootSignsIn(Hash("p", 0));
    more, v, next := SwitchesOn(events, w, sid, NewRoot(1, Hash("p", 0)), "s");
  }

  /** A password changed by the user who owes the change. */
  lemma ChangesPassword(done: seq<Event>, w: World, sid: nat, u: User, password: string)
      returns (events: seq<Event>, after: World, next: nat)
    requires Idle(w, done) && Belongs(w, sid, u) && w.issued[sid].state == Password
    requires u.mustChange && u.hash.password != password
    ensures Idle(after, events) && Belongs(after, next, u.(hash := Hash(password, 0), mustChange := false, version := u.version + 1))
    ensures after.users == w.users[u.id := u.(hash := Hash(password, 0), mustChange := false, version := u.version + 1)]
    ensures after.issued[next].state == Authenticated
  {
    var f;
    events, f := Asks(done, w, ChangePassword, sid, u, Form("", u.hash.password, password, 0, false));
    events, after, next :=
      Concludes(events, w, f, u, u.(hash := Hash(password, 0), mustChange := false, version := u.version + 1));
  }

  /** An ordinary user signs in, changes the password, and stays accepted when the administrator then asks
      for a second factor that the user does not have. */
  lemma RequiredFactorIsNotEnforced() returns (events: seq<Event>, sid: nat)
    ensures Live(Run(events), sid)
    ensures var u := AuthenticatedUser(Run(events), sid); u.Some? && u.value.kind.Ordinary? && !u.value.required
    ensures var v := AuthenticatedUser(Run(events + [Administer(EditUser(1, "ann", Active, true, false))]), sid);
            v.Some? && v.value.required && !v.value.enabled
  {
    var hash := Hash("p", 0);
    var user := NewUser(1, "ann", hash, false);
    events := [Administer(CreateUser("ann", hash, false))];
    var w := Put(START.(lastId := 1), Some(user));
    RunOneMore([], Administer(CreateUser("ann", hash, false)));
    assert [] + events == events;
    events, w, sid := SignsIn(events, w, user);
    events, w, sid := ChangesPassword(events, w, sid, user, "q");
    EditsThatEndSessions(events, sid, "ann", Active, true, false);
  }
}
