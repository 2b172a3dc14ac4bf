/** What every interleaving of the handlers and the administrator's steps keeps. */
module ProtocolSafety {
  import opened Wrappers
  import opened Accounts
  import opened Protocol

  // ---------- Descent ----------

  /** Session j is session i or one that i replaced, directly or through others. */
  ghost predicate Descends(issued: seq<Issue>, i: nat, j: nat)
    decreases i
  {
    && i < |issued|
    && (i == j || (issued[i].parent.Some? && issued[i].parent.value < i && Descends(issued, issued[i].parent.value, j)))
  }

  /** Some session in the descent of i was issued on an accepted code for exactly this secret. */
  ghost predicate Vouched(issued: seq<Issue>, i: nat, check: Check) {
    exists j: nat :: Descends(issued, i, j) && j < |issued| && issued[j].checked == Some(check)
  }

  lemma {:induction false} DescentGrows(issued: seq<Issue>, more: seq<Issue>, i: nat, j: nat)
    requires issued <= more && Descends(issued, i, j)
    ensures Descends(more, i, j)
    decreases i
  {
    if i != j {
      DescentGrows(issued, more, issued[i].parent.value, j);
    }
  }

  lemma VouchingGrows(issued: seq<Issue>, more: seq<Issue>, i: nat, check: Check)
    requires issued <= more && Vouched(issued, i, check)
    ensures Vouched(more, i, check)
  {
    var j: nat :| Descends(issued, i, j) && j < |issued| && issued[j].checked == Some(check);
    DescentGrows(issued, more, i, j);
  }

  // ---------- Invariant ----------

  /** The credentials of (user, version) are recorded and, with a second factor, vouched for by i. */
  ghost predicate Settled(w: World, i: nat, user: nat, version: nat) {
    && i < |w.issued|
    && (user, version) in w.history
    && var c := w.history[(user, version)];
       c.factor.Some? ==> Vouched(w.issued, i, Check(user, c.factor.value))
  }

  ghost predicate IssueOk(w: World, i: nat)
    requires i < |w.issued|
  {
    var s := w.issued[i];
    && (s.parent.Some? ==> s.parent.value < i)
    && (s.state == Password || s.state == Authenticated ==> Settled(w, i, s.user, s.version))
    && (s.state == Authenticated ==> !w.history[(s.user, s.version)].mustChange)
  }

  /** A row that once stood in the table. */
  ghost predicate Snapshot(w: World, u: User) {
    WellFormed(u) && (u.id, u.version) in w.history && w.history[(u.id, u.version)] == CredentialsOf(u)
  }

  /** What a handler that has stored its update needs for its rotation. */
  ghost predicate StoredOk(w: World, f: Flight, u: User) {
    && (f.handler != ConfirmEnrollment ==> !u.mustChange)
    && (u.enabled && u.secret.Some? ==>
          var c := Check(u.id, u.secret.value); f.checked == Some(c) || Vouched(w.issued, f.sid, c))
  }

  ghost predicate FlightOk(w: World, f: Flight) {
    && f.sid < |w.issued|
    && Admits(f.handler, w.issued[f.sid].state)
    && match f.stage
       case Opened => true
       case Looked(u) => Snapshot(w, u) && FromSession(w, f, u)
       case Accepted(u) =>
         && Snapshot(w, u) && FromSession(w, f, u) && f.handler !in {PrepareAccount, LogOut}
         && (f.handler in {ConfirmEnrollment, ConfirmAccount, VerifyTwoFactor} ==>
               u.secret.Some? && f.checked == Some(Check(u.id, u.secret.value)))
       case Stored(u) => Snapshot(w, u) && Updates(f.handler) && StoredOk(w, f, u)
  }

  /** The row a handler holds is the one its session names, at the session's version. */
  ghost predicate FromSession(w: World, f: Flight, u: User)
    requires f.sid < |w.issued|
  {
    f.handler != LogIn ==> u.id == w.issued[f.sid].user && u.version == w.issued[f.sid].version
  }

  ghost predicate RowOk(w: World, id: nat)
    requires id in w.users
  {
    w.users[id].id == id && 1 <= id <= w.lastId && Snapshot(w, w.users[id])
  }

  ghost predicate Past(w: World, id: nat, version: nat) {
    id <= w.lastId && (id in w.users ==> version <= w.users[id].version)
  }

  ghost predicate Spent(w: World, g: Grant) {
    g.user <= w.lastId && (g.user in w.users ==> g.version < w.users[g.user].version)
  }

  ghost predicate Inv(w: World) {
    && (forall s | s in w.live :: s < |w.issued|)
    && (forall id | id in w.users :: RowOk(w, id))
    && (forall p | p in w.history :: Past(w, p.0, p.1))
    && (forall i | 0 <= i < |w.issued| :: IssueOk(w, i))
    && (forall k | k in w.flights :: FlightOk(w, w.flights[k]))
    && (forall i | 0 <= i < |w.granted| :: Spent(w, w.granted[i]))
    && (forall i, j | 0 <= i < j < |w.granted| :: w.granted[i] != w.granted[j])
  }

  // ---------- The pieces every step is made of ----------

  /** Recorded facts are only ever added, versions only rise, and a spent id gets no new row. */
  ghost predicate Extends(v: World, w: World) {
    && v.issued <= w.issued && v.granted <= w.granted && v.lastId <= w.lastId
    && (forall p | p in v.history :: p in w.history && w.history[p] == v.history[p])
    && (forall id | id in w.users && id <= v.lastId :: id in v.users && v.users[id].version <= w.users[id].version)
  }

  lemma FactsPersist(v: World, w: World)
    requires Extends(v, w)
    ensures forall i | 0 <= i < |v.issued| && IssueOk(v, i) :: IssueOk(w, i)
    ensures forall f | FlightOk(v, f) :: FlightOk(w, f)
    ensures forall u | Snapshot(v, u) :: Snapshot(w, u)
  {
    forall i, c | Vouched(v.issued, i, c) ensures Vouched(w.issued, i, c) {
      VouchingGrows(v.issued, w.issued, i, c);
    }
    forall i | 0 <= i < |v.issued| && IssueOk(v, i) ensures IssueOk(w, i) {
      var s := v.issued[i];
      assert w.issued[i] == s;
      if s.state == Password || s.state == Authenticated {
        assert Settled(v, i, s.user, s.version);
        assert Settled(w, i, s.user, s.version);
      }
    }
    forall f | FlightOk(v, f) ensures FlightOk(w, f) {
      assert w.issued[f.sid] == v.issued[f.sid];
    }
  }

  /** A row may replace an older one of the same user, or be the first of a new user. */
  ghost predicate Replaces(w: World, u: User) {
    && WellFormed(u)
    && if u.id in w.users then Advances(w.users[u.id], u) else u.id == w.lastId + 1
  }

  lemma PutExtends(w: World, u: User, after: World)
    requires Replaces(w, u) && after == Put(if u.id in w.users then w else w.(lastId := u.id), Some(u))
    requires (u.id in w.users ==> RowOk(w, u.id)) && ((u.id, u.version) in w.history ==> Past(w, u.id, u.version))
    ensures Extends(w, after) && Snapshot(after, u)
  {
    if (u.id, u.version) in w.history {
      assert w.history[(u.id, u.version)] == CredentialsOf(u);
    }
  }

  lemma PutKeepsInv(w: World, u: User)
    requires Inv(w) && Replaces(w, u)
    ensures var base := if u.id in w.users then w else w.(lastId := u.id);
            var after := Put(base, Some(u));
            Inv(after) && Extends(w, after) && Snapshot(after, u)
  {
    var base := if u.id in w.users then w else w.(lastId := u.id);
    var after := Put(base, Some(u));
    var key := (u.id, u.version);
    PutExtends(w, u, after);
    FactsPersist(w, after);
    forall id | id in after.users ensures RowOk(after, id) {
      if id != u.id { assert RowOk(w, id); }
    }
    forall p | p in after.history ensures Past(after, p.0, p.1) {
      if p != key { assert Past(w, p.0, p.1); }
    }
    forall i | 0 <= i < |after.granted| ensures Spent(after, after.granted[i]) {
      assert Spent(w, w.granted[i]);
    }
    forall k | k in after.flights ensures FlightOk(after, after.flights[k]) {
      assert FlightOk(w, w.flights[k]);
    }
    forall i | 0 <= i < |after.issued| ensures IssueOk(after, i) {
      assert IssueOk(w, i);
    }
  }

  /** Changing only which sessions live and which flights are on, with sound flights, keeps the invariant. */
  lemma FlightsKeepInv(w: World, v: World)
    requires Inv(w) && v == w.(live := v.live, flights := v.flights)
    requires v.live <= w.live
    requires forall k | k in v.flights :: FlightOk(w, v.flights[k])
    ensures Inv(v) && Extends(w, v)
  {
    FactsPersist(w, v);
    assert forall id | id in v.users :: RowOk(w, id) ==> RowOk(v, id);
    assert forall p | p in v.history :: Past(w, p.0, p.1);
    assert forall i | 0 <= i < |v.granted| :: Spent(w, v.granted[i]);
    assert forall i | 0 <= i < |v.issued| :: IssueOk(w, i);
  }

  lemma IssueKeepsInv(w: World, s: Issue, gone: set<nat>)
    requires Inv(w)
    requires var v := w.(issued := w.issued + [s]); IssueOk(v, |w.issued|)
    ensures var v := w.(issued := w.issued + [s], live := w.live - gone + {|w.issued|}); Inv(v) && Extends(w, v)
  {
    var u := w.(issued := w.issued + [s]);
    var v := u.(live := w.live - gone + {|w.issued|});
    assert Extends(w, v) && Extends(u, v);
    FactsPersist(w, v);
    FactsPersist(u, v);
    forall id | id in v.users ensures RowOk(v, id) { assert RowOk(w, id); }
    forall p | p in v.history ensures Past(v, p.0, p.1) { assert Past(w, p.0, p.1); }
    forall i | 0 <= i < |v.granted| ensures Spent(v, v.granted[i]) { assert Spent(w, w.granted[i]); }
    forall i | 0 <= i < |v.issued| ensures IssueOk(v, i) {
      if i < |w.issued| { assert IssueOk(w, i); } else { assert IssueOk(u, i); }
    }
    forall k | k in v.flights ensures FlightOk(v, v.flights[k]) { assert FlightOk(w, w.flights[k]); }
  }

  /** The rotation at the end of a handler issues a session that meets its invariant. */
  lemma RotationIssues(w: World, k: nat)
    requires Inv(w) && k in w.flights && w.flights[k].handler != LogOut
    requires w.flights[k].stage.Stored? || (w.flights[k].stage.Accepted? && !Updates(w.flights[k].handler))
    requires w.flights[k].stage.Accepted? ==> w.flights[k].handler in {LogIn, VerifyTwoFactor}
    ensures var f, u := w.flights[k], w.flights[k].stage.user;
            var s := Issue(Target(f.handler, u), u.id, u.version, Some(f.sid), f.checked);
            IssueOk(w.(issued := w.issued + [s]), |w.issued|)
  {
    var f, u := w.flights[k], w.flights[k].stage.user;
    var s := Issue(Target(f.handler, u), u.id, u.version, Some(f.sid), f.checked);
    var v := w.(issued := w.issued + [s]);
    var i := |w.issued|;
    assert FlightOk(w, f);
    if u.enabled && (s.state == Password || s.state == Authenticated) {
      var c := Check(u.id, u.secret.value);
      if f.checked == Some(c) {
        assert Descends(v.issued, i, i);
      } else {
        assert Vouched(w.issued, f.sid, c);
        var j: nat :| Descends(w.issued, f.sid, j) && j < |w.issued| && w.issued[j].checked == Some(c);
        DescentGrows(w.issued, v.issued, f.sid, j);
        assert Descends(v.issued, i, j);
      }
      assert Vouched(v.issued, i, c);
    }
  }

  lemma RotatedKeepsInv(w: World, k: nat)
    requires Inv(w) && k in w.flights && w.flights[k].handler != LogOut
    requires w.flights[k].stage.Stored? || (w.flights[k].stage.Accepted? && !Updates(w.flights[k].handler))
    ensures var f, u := w.flights[k], w.flights[k].stage.user;
            var after := Rotated(w, k, Target(f.handler, u), u);
            Inv(after) && Extends(w, after)
  {
    var f, u := w.flights[k], w.flights[k].stage.user;
    assert FlightOk(w, f);
    RotationIssues(w, k);
    var s := Issue(Target(f.handler, u), u.id, u.version, Some(f.sid), f.checked);
    IssueKeepsInv(w, s, {f.sid});
    var v := w.(issued := w.issued + [s], live := w.live - {f.sid} + {|w.issued|});
    FlightsKeepInv(v, Ended(v, k));
  }

  /** Advancing a flight to a sound stage. */
  lemma StageKeepsInv(w: World, k: nat, f: Flight)
    requires Inv(w) && k in w.flights && FlightOk(w, f)
    ensures var after := w.(flights := w.flights[k := f]); Inv(after) && Extends(w, after)
  {
    FlightsKeepInv(w, w.(flights := w.flights[k := f]));
  }

  lemma LookUpKeepsInv(w: World, k: nat, form: Form, found: nat)
    requires Inv(w) && k in w.flights && w.flights[k].stage.Opened? && w.flights[k].handler != LogOut
    ensures var after := LookUp(w, k, form, found); Inv(after) && Extends(w, after)
  {
    var f := w.flights[k];
    assert FlightOk(w, f);
    var after := LookUp(w, k, form, found);
    forall id | id in w.users ensures Snapshot(w, w.users[id]) && w.users[id].id == id {
      assert RowOk(w, id);
    }
    FlightsKeepInv(w, after);
  }

  lemma PrepareKeepsInv(w: World, k: nat, secret: string)
    requires Inv(w) && k in w.flights && w.flights[k].stage.Looked?
    requires var u := w.flights[k].stage.user;
             Prepared(Row(w.users, u.id), u.version, secret).Some?
    ensures var u := w.flights[k].stage.user;
            var row := Prepared(Row(w.users, u.id), u.version, secret);
            var after := At(Put(w, row), k, Looked(row.value));
            Inv(after) && Extends(w, after)
  {
    var u := w.flights[k].stage.user;
    var row := Prepared(Row(w.users, u.id), u.version, secret);
    assert RowOk(w, u.id) && FlightOk(w, w.flights[k]);
    PutKeepsInv(w, row.value);
    StageKeepsInv(Put(w, row), k, w.flights[k].(stage := Looked(row.value)));
  }

  /** The update a handler is granted leaves it entitled to rotate into its target. */
  lemma UpdateStores(w: World, k: nat)
    requires Inv(w) && k in w.flights && w.flights[k].stage.Accepted? && Updates(w.flights[k].handler)
    requires Requested(w, w.flights[k], w.flights[k].stage.user).Some?
    ensures var f, u := w.flights[k], w.flights[k].stage.user;
            var row := Requested(w, f, u);
            && Replaces(w, row.value) && row.value.id == u.id && row.value.version == u.version + 1
            && u.id in w.users && w.users[u.id].version == u.version
            && StoredOk(w, f, row.value)
  {
    var f, u := w.flights[k], w.flights[k].stage.user;
    assert FlightOk(w, f) && RowOk(w, u.id) && IssueOk(w, f.sid);
    var row := w.users[u.id];
    assert CredentialsOf(row) == CredentialsOf(u);
    assert f.handler != ConfirmEnrollment ==> Settled(w, f.sid, u.id, u.version);
  }

  lemma UpdateKeepsInv(w: World, k: nat)
    requires Inv(w) && k in w.flights && w.flights[k].stage.Accepted? && Updates(w.flights[k].handler)
    requires Requested(w, w.flights[k], w.flights[k].stage.user).Some?
    ensures var f, u := w.flights[k], w.flights[k].stage.user;
            var row := Requested(w, f, u);
            var after := At(Put(w, row).(granted := w.granted + [Grant(u.id, u.version)]), k, Stored(row.value));
            Inv(after) && Extends(w, after)
  {
    var f, u := w.flights[k], w.flights[k].stage.user;
    var row := Requested(w, f, u);
    var g := Grant(u.id, u.version);
    UpdateStores(w, k);
    forall i | 0 <= i < |w.granted| ensures w.granted[i] != g {
      assert Spent(w, w.granted[i]);
    }
    PutKeepsInv(w, row.value);
    var v := Put(w, row);
    assert Snapshot(v, row.value) && v.flights == w.flights && FlightOk(v, f);
    GrantKeepsInv(v, g);
    StageKeepsInv(v.(granted := v.granted + [g]), k, f.(stage := Stored(row.value)));
  }

  lemma GrantKeepsInv(w: World, g: Grant)
    requires Inv(w) && Spent(w, g)
    requires forall i | 0 <= i < |w.granted| :: w.granted[i] != g
    ensures var after := w.(granted := w.granted + [g]); Inv(after) && Extends(w, after)
  {
    var v := w.(granted := w.granted + [g]);
    FactsPersist(w, v);
    forall id | id in v.users ensures RowOk(v, id) { assert RowOk(w, id); }
    forall p | p in v.history ensures Past(v, p.0, p.1) { assert Past(w, p.0, p.1); }
    forall i | 0 <= i < |v.issued| ensures IssueOk(v, i) { assert IssueOk(w, i); }
    forall k | k in v.flights ensures FlightOk(v, v.flights[k]) { assert FlightOk(w, w.flights[k]); }
    forall i | 0 <= i < |v.granted| ensures Spent(v, v.granted[i]) {
      if i < |w.granted| { assert Spent(w, w.granted[i]); }
    }
  }

  lemma DeleteKeepsInv(w: World, id: nat)
    requires Inv(w)
    ensures var after := w.(users := w.users - {id}); Inv(after) && Extends(w, after)
  {
    var v := w.(users := w.users - {id});
    FactsPersist(w, v);
    forall u | u in v.users ensures RowOk(v, u) { assert RowOk(w, u); }
    forall p | p in v.history ensures Past(v, p.0, p.1) { assert Past(w, p.0, p.1); }
    forall i | 0 <= i < |v.granted| ensures Spent(v, v.granted[i]) { assert Spent(w, w.granted[i]); }
    forall i | 0 <= i < |v.issued| ensures IssueOk(v, i) { assert IssueOk(w, i); }
    forall k | k in v.flights ensures FlightOk(v, v.flights[k]) { assert FlightOk(w, w.flights[k]); }
  }

  // ---------- Every step ----------

  lemma EditKeepsInv(w: World, id: nat, after: Option<User>)
    requires Inv(w) && (after.Some? ==> id in w.users && Advances(w.users[id], after.value))
    ensures Inv(Put(w, after)) && Extends(w, Put(w, after))
  {
    if after.Some? {
      assert RowOk(w, id);
      PutKeepsInv(w, after.value);
    }
  }

  lemma CreationKeepsInv(w: World, u: User)
    requires Inv(w) && WellFormed(u) && u.id == w.lastId + 1
    ensures var after := Put(w.(lastId := w.lastId + 1), Some(u)); Inv(after) && Extends(w, after)
  {
    assert forall id | id in w.users :: RowOk(w, id);
    PutKeepsInv(w, u);
  }

  lemma EditUserKeepsInv(w: World, id: nat, login: string, status: Status, required: bool, reset: bool)
    requires Inv(w)
    ensures var after := Put(w, Accounts.Updated(Row(w.users, id), login, status, required, reset));
            Inv(after) && Extends(w, after)
  {
    if id in w.users { assert RowOk(w, id); }
    EditKeepsInv(w, id, Accounts.Updated(Row(w.users, id), login, status, required, reset));
  }

  lemma ResetKeepsInv(w: World, id: nat, hash: Hash)
    requires Inv(w)
    ensures var after := Put(w, PasswordReset(Row(w.users, id), hash)); Inv(after) && Extends(w, after)
    ensures var after := Put(w, RootPasswordReset(Row(w.users, id), hash)); Inv(after) && Extends(w, after)
    ensures var after := Put(w, RootFactorDisabled(Row(w.users, id))); Inv(after) && Extends(w, after)
  {
    if id in w.users { assert RowOk(w, id); }
    EditKeepsInv(w, id, PasswordReset(Row(w.users, id), hash));
    EditKeepsInv(w, id, RootPasswordReset(Row(w.users, id), hash));
    EditKeepsInv(w, id, RootFactorDisabled(Row(w.users, id)));
  }

  lemma CreationGives(w: World, login: string, hash: Hash, required: bool)
    ensures Administered(w, CreateUser(login, hash, required))
            in {w, Put(w.(lastId := w.lastId + 1), Some(NewUser(w.lastId + 1, login, hash, required)))}
    ensures Administered(w, CreateRoot(hash)) in {w, Put(w.(lastId := w.lastId + 1), Some(NewRoot(w.lastId + 1, hash)))}
  {
  }

  /** Creating an account either adds its row or does nothing. */
  lemma AdditionKeepsInv(w: World, u: User, after: World)
    requires Inv(w) && WellFormed(u) && u.id == w.lastId + 1
    requires after in {w, Put(w.(lastId := w.lastId + 1), Some(u))}
    ensures Inv(after) && Extends(w, after)
  {
    CreationKeepsInv(w, u);
  }

  lemma AccountStepKeepsInv(w: World, what: Administration)
    requires Inv(w) && (what.CreateUser? || what.CreateRoot? || what.DeleteUser?)
    ensures Inv(Administered(w, what)) && Extends(w, Administered(w, what))
  {
    match what
    case CreateUser(login, hash, required) =>
      CreationGives(w, login, hash, required);
      AdditionKeepsInv(w, NewUser(w.lastId + 1, login, hash, required), Administered(w, what));
    case CreateRoot(hash) =>
      CreationGives(w, "", hash, false);
      AdditionKeepsInv(w, NewRoot(w.lastId + 1, hash), Administered(w, what));
    case DeleteUser(id) => DeleteUserKeepsInv(w, id);
  }

  lemma DeleteUserKeepsInv(w: World, id: nat)
    requires Inv(w)
    ensures var after := Administered(w, DeleteUser(id)); Inv(after) && Extends(w, after)
  {
    DeleteKeepsInv(w, id);
  }

  lemma AdministratorKeepsInv(w: World, what: Administration)
    requires Inv(w)
    ensures Inv(Administered(w, what)) && Extends(w, Administered(w, what))
  {
    match what
    case EditUser(id, login, status, required, reset) => EditUserKeepsInv(w, id, login, status, required, reset);
    case ResetPassword(id, hash) => ResetKeepsInv(w, id, hash);
    case ResetRoot(id, hash) => ResetKeepsInv(w, id, hash);
    case DisableRoot(id) => ResetKeepsInv(w, id, Hash("", 0));
    case _ => AccountStepKeepsInv(w, what);
  }

  ghost predicate FlightsOk(w: World, flights: map<nat, Flight>) {
    forall k | k in flights :: FlightOk(w, flights[k])
  }

  lemma OneFlightMore(w: World, k: nat, f: Flight)
    requires FlightsOk(w, w.flights) && FlightOk(w, f)
    ensures FlightsOk(w, w.flights[k := f])
  {
  }

  /** Steps that end, open or check a flight, or drop sessions: they touch no row and issue nothing. */
  lemma FlightStepGives(w: World, e: Event)
    requires Formed(w) && FlightsOk(w, w.flights)
    requires e.Open? || e.Submit? || e.Abandon? || e.Lose?
    ensures var v := Apply(w, e); v == w.(live := v.live, flights := v.flights) && v.live <= w.live && FlightsOk(w, v.flights)
  {
    match e
    case Open(k, h, sid) =>
      if sid in w.live && Admits(h, w.issued[sid].state) {
        OneFlightMore(w, k, Flight(h, sid, Opened, Hash("", 0), None));
      }
    case Submit(k, form) =>
      if k in w.flights { assert FlightOk(w, w.flights[k]); }
    case _ =>
  }

  lemma FlightStepKeepsInv(w: World, e: Event)
    requires Inv(w) && Formed(w)
    requires e.Open? || e.Submit? || e.Abandon? || e.Lose?
    ensures Inv(Apply(w, e)) && Extends(w, Apply(w, e))
  {
    forall k | k in w.flights ensures FlightOk(w, w.flights[k]) {}
    FlightStepGives(w, e);
    FlightsKeepInv(w, Apply(w, e));
  }

  /** A flight that stops without rotating, its session destroyed or not. */
  lemma StopKeepsInv(w: World, k: nat)
    requires Inv(w) && k in w.flights
    ensures Inv(w) && Extends(w, w)
    ensures Inv(Ended(w, k)) && Extends(w, Ended(w, k))
    ensures Inv(Refused(w, k)) && Extends(w, Refused(w, k))
  {
    forall j | j in w.flights ensures FlightOk(w, w.flights[j]) {}
    FlightsKeepInv(w, Ended(w, k));
    FlightsKeepInv(w, Refused(w, k));
  }

  /** A preparation writes the secret, or stops the flight, or does nothing. */
  ghost predicate PrepareGives(w: World, k: nat, secret: string, after: World) {
    || after == w
    || (k in w.flights && after in {Ended(w, k), Refused(w, k)})
    || (k in w.flights && w.flights[k].stage.Looked?
        && var u := w.flights[k].stage.user;
           var row := Prepared(Row(w.users, u.id), u.version, secret);
           row.Some? && after == At(Put(w, row), k, Looked(row.value)))
  }

  lemma PrepareStepGives(w: World, k: nat, secret: string)
    requires Formed(w)
    ensures PrepareGives(w, k, secret, Apply(w, Prepare(k, secret)))
  {
  }

  lemma PrepareStepKeepsInv(w: World, k: nat, secret: string, after: World)
    requires Inv(w) && PrepareGives(w, k, secret, after)
    ensures Inv(after) && Extends(w, after)
  {
    if k in w.flights {
      StopKeepsInv(w, k);
      if w.flights[k].stage.Looked?
         && Prepared(Row(w.users, w.flights[k].stage.user.id), w.flights[k].stage.user.version, secret).Some? {
        PrepareKeepsInv(w, k, secret);
      }
    }
  }

  lemma PreparationKeepsInv(w: World, k: nat, secret: string)
    requires Inv(w) && Formed(w)
    ensures Inv(Apply(w, Prepare(k, secret))) && Extends(w, Apply(w, Prepare(k, secret)))
  {
    PrepareStepGives(w, k, secret);
    PrepareStepKeepsInv(w, k, secret, Apply(w, Prepare(k, secret)));
  }

  lemma UpdateStepKeepsInv(w: World, k: nat)
    requires Inv(w)
    ensures Inv(Apply(w, Update(k))) && Extends(w, Apply(w, Update(k)))
  {
    if k in w.flights {
      StopKeepsInv(w, k);
      if w.flights[k].stage.Accepted? && Updates(w.flights[k].handler)
         && Requested(w, w.flights[k], w.flights[k].stage.user).Some? {
        UpdateKeepsInv(w, k);
      }
    }
  }

  lemma FinishKeepsInv(w: World, k: nat)
    requires Inv(w)
    ensures Inv(Apply(w, Finish(k))) && Extends(w, Apply(w, Finish(k)))
  {
    if k in w.flights {
      StopKeepsInv(w, k);
      if w.flights[k].handler != LogOut
         && (w.flights[k].stage.Stored? || (w.flights[k].stage.Accepted? && !Updates(w.flights[k].handler))) {
        RotatedKeepsInv(w, k);
      }
    }
  }

  lemma StepKeepsInv(w: World, e: Event)
    requires Inv(w)
    ensures Formed(w) && Inv(Apply(w, e)) && Extends(w, Apply(w, e))
  {
    forall k | k in w.flights ensures FlightOk(w, w.flights[k]) {}
    match e
    case Visit =>
      IssueKeepsInv(w, Issue(Anonymous, 0, 0, None, None), {});
      assert w.live - {} == w.live;
    case Look(k, form, found) =>
      if k in w.flights && w.flights[k].stage.Opened? && w.flights[k].handler != LogOut {
        LookUpKeepsInv(w, k, form, found);
      }
    case Prepare(k, secret) => PreparationKeepsInv(w, k, secret);
    case Update(k) => UpdateStepKeepsInv(w, k);
    case Finish(k) => FinishKeepsInv(w, k);
    case Administer(what) => AdministratorKeepsInv(w, what);
    case _ =>
      FlightStepKeepsInv(w, e);
  }
}
