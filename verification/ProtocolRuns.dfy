/** The protocol's guarantees, over every run from the empty database. */
module ProtocolRuns {
  import opened Names
  import opened Wrappers
  import opened Accounts
  import opened Protocol
  import opened ProtocolSafety

  /** The world after a run. */
  function Run(events: seq<Event>): (w: World)
    ensures Formed(w)
  {
    if events == [] then START
    else
      var before := Run(events[..|events| - 1]);
      StaysFormed(before, events[|events| - 1]);
      Apply(before, events[|events| - 1])
  }

  lemma LookStaysFormed(w: World, k: nat, form: Form, found: nat)
    requires Formed(w) && k in w.flights
    ensures Formed(LookUp(w, k, form, found))
  {
  }

  lemma UpdateStaysFormed(w: World, k: nat)
    requires Formed(w)
    ensures Formed(Apply(w, Update(k)))
  {
  }

  lemma PreparationStaysFormed(w: World, k: nat, secret: string)
    requires Formed(w)
    ensures Formed(Apply(w, Prepare(k, secret)))
  {
    PrepareStepGives(w, k, secret);
  }

  lemma AdministrationStaysFormed(w: World, what: Administration)
    requires Formed(w)
    ensures Formed(Administered(w, what))
  {
  }

  lemma FlightStepStaysFormed(w: World, e: Event)
    requires Formed(w) && (e.Visit? || e.Open? || e.Submit? || e.Abandon? || e.Lose?)
    ensures Formed(Apply(w, e))
  {
  }

  lemma FinishStaysFormed(w: World, k: nat)
    requires Formed(w)
    ensures Formed(Apply(w, Finish(k)))
  {
  }

  lemma StaysFormed(w: World, e: Event)
    requires Formed(w)
    ensures Formed(Apply(w, e))
  {
    match e
    case Look(k, form, found) =>
      if k in w.flights { LookStaysFormed(w, k, form, found); }
    case Prepare(k, secret) => PreparationStaysFormed(w, k, secret);
    case Update(k) => UpdateStaysFormed(w, k);
    case Finish(k) => FinishStaysFormed(w, k);
    case Administer(what) => AdministrationStaysFormed(w, what);
    case _ => FlightStepStaysFormed(w, e);
  }

  lemma RunOneMore(events: seq<Event>, e: Event)
    ensures Run(events + [e]) == Apply(Run(events), e)
  {
    assert (events + [e])[..|events + [e]| - 1] == events;
  }

  /** Every run keeps the invariant. */
  lemma {:induction false} RunKeepsInv(events: seq<Event>)
    ensures Inv(Run(events))
    decreases |events|
  {
    if events != [] {
      RunKeepsInv(events[..|events| - 1]);
      StepKeepsInv(Run(events[..|events| - 1]), events[|events| - 1]);
    }
  }

  /** authenticatedUser: the session's state and the row's status and version, nothing else. */
  function AuthenticatedUser(w: World, sid: nat): Option<User>
    requires sid in w.live ==> sid < |w.issued|
  {
    if sid !in w.live || w.issued[sid].state != Authenticated then None
    else
      var row := Row(w.users, w.issued[sid].user);
      if row.Some? && row.value.status == Active && row.value.version == w.issued[sid].version then row else None
  }

  ghost predicate Live(w: World, sid: nat) {
    sid in w.live && sid < |w.issued|
  }

  /** A live session whose version is its user's current one. */
  ghost predicate Current(w: World, sid: nat) {
    && Live(w, sid)
    && w.issued[sid].user in w.users && w.users[w.issued[sid].user].version == w.issued[sid].version
  }

  // ---------- Safety of sessions ----------

  /** authenticatedUser never looks at must_change_password, and never needs to. */
  lemma SignedInUsersOweNoPasswordChange(events: seq<Event>, sid: nat)
    requires Current(Run(events), sid) && Run(events).issued[sid].state == Authenticated
    ensures var w := Run(events); !w.users[w.issued[sid].user].mustChange
  {
    var w := Run(events);
    RunKeepsInv(events);
    assert IssueOk(w, sid) && RowOk(w, w.issued[sid].user);
  }

  /** With two-factor login on, a current session past the password descends from a session
      issued on an accepted code for the very secret that is in force. */
  lemma SecondFactorWasChecked(events: seq<Event>, sid: nat)
    requires Current(Run(events), sid) && Run(events).issued[sid].state in {Password, Authenticated}
    requires var w := Run(events); w.users[w.issued[sid].user].enabled
    ensures var w := Run(events); var u := w.users[w.issued[sid].user];
            && u.secret.Some?
            && exists j: nat :: Descends(w.issued, sid, j) && j < |w.issued| && w.issued[j].checked == Some(Check(u.id, u.secret.value))
  {
    var w := Run(events);
    RunKeepsInv(events);
    assert IssueOk(w, sid) && RowOk(w, w.issued[sid].user);
    assert Settled(w, sid, w.issued[sid].user, w.issued[sid].version);
  }

  /** What the guard of every protected page really grants. */
  lemma GuardIsEnough(events: seq<Event>, sid: nat)
    requires Live(Run(events), sid) && AuthenticatedUser(Run(events), sid).Some?
    ensures var w := Run(events); var u := AuthenticatedUser(w, sid).value;
            && u.status == Active && !u.mustChange
            && (u.enabled ==> u.secret.Some? && Vouched(w.issued, sid, Check(u.id, u.secret.value)))
  {
    SignedInUsersOweNoPasswordChange(events, sid);
    if AuthenticatedUser(Run(events), sid).value.enabled {
      SecondFactorWasChecked(events, sid);
    }
  }

  // ---------- Versions ----------

  lemma {:induction false} RunsExtend(events: seq<Event>, more: seq<Event>)
    ensures Extends(Run(events), Run(events + more))
    decreases |more|
  {
    if more == [] {
      assert events + more == events;
    } else {
      var last := |more| - 1;
      var sofar := events + more[..last];
      RunsExtend(events, more[..last]);
      assert (events + more)[..|events + more| - 1] == sofar;
      assert (events + more)[|events + more| - 1] == more[last];
      RunKeepsInv(sofar);
      StepKeepsInv(Run(sofar), more[last]);
    }
  }

  /** auth_version never goes down, and a deleted account never comes back under its id. */
  lemma VersionsNeverDecrease(events: seq<Event>, more: seq<Event>, id: nat)
    requires id in Run(events + more).users
    requires id <= Run(events).lastId
    ensures id in Run(events).users && Run(events).users[id].version <= Run(events + more).users[id].version
  {
    RunsExtend(events, more);
  }

  /** Password hash, duty to change it and second factor depend on (user, version) alone, over a whole run. */
  lemma CredentialsFollowTheVersion(events: seq<Event>, more: seq<Event>, id: nat)
    requires id in Run(events).users && id in Run(events + more).users
    requires Run(events).users[id].version == Run(events + more).users[id].version
    ensures CredentialsOf(Run(events).users[id]) == CredentialsOf(Run(events + more).users[id])
  {
    RunsExtend(events, more);
    RunKeepsInv(events);
    RunKeepsInv(events + more);
    assert RowOk(Run(events), id) && RowOk(Run(events + more), id);
  }

  /** Of all the credential changes that carry one (user, version), at most one is ever granted. */
  lemma OneGrantPerVersion(events: seq<Event>, i: nat, j: nat)
    requires i < |Run(events).granted| && j < |Run(events).granted|
    requires Run(events).granted[i] == Run(events).granted[j]
    ensures i == j
  {
    RunKeepsInv(events);
  }

  /** A session left behind by a version change is never accepted again. */
  lemma StaleSessionsStayRefused(events: seq<Event>, more: seq<Event>, sid: nat)
    requires sid < |Run(events).issued| && Run(events).issued[sid].user in Run(events).users
    requires var w := Run(events); w.issued[sid].version < w.users[w.issued[sid].user].version
    ensures sid < |Run(events + more).issued| && AuthenticatedUser(Run(events + more), sid) == None
  {
    var v, w := Run(events), Run(events + more);
    RunsExtend(events, more);
    RunKeepsInv(events);
    RunKeepsInv(events + more);
    var id := v.issued[sid].user;
    assert RowOk(v, id) && w.issued[sid] == v.issued[sid];
    if id in w.users {
      VersionsNeverDecrease(events, more, id);
    }
  }

  // ---------- What an edit does to open sessions ----------

  /** The row after an edit nobody refuses. */
  lemma EditWrites(w: World, id: nat, login: string, status: Status, required: bool, reset: bool)
    requires id in w.users && w.users[id].id == id && w.users[id].kind.Ordinary?
    requires LoginFits(login) && forall u | u in w.users && u != id :: !SameName(w.users[u].login, login)
    ensures var after := Administered(w, EditUser(id, login, status, required, reset));
            && after.live == w.live && after.issued == w.issued && id in after.users
            && var u, v := w.users[id], after.users[id];
               v.status == status && v.required == required && v.version == u.version + (if reset then 1 else 0)
               && v.enabled == (u.enabled && !reset)
  {
  }

  /** After every run, editing an ordinary user cuts off an accepted session exactly when the edit
      suspends the account or resets its second factor. Asking for a second factor does not, so a
      session may stay accepted for a user who must have one and has none. */
  lemma EditsThatEndSessions(events: seq<Event>, sid: nat, login: string, status: Status, required: bool, reset: bool)
    requires Live(Run(events), sid) && AuthenticatedUser(Run(events), sid).Some?
    requires AuthenticatedUser(Run(events), sid).value.kind.Ordinary?
    requires LoginFits(login)
    requires var w := Run(events); forall u | u in w.users && u != w.issued[sid].user :: !SameName(w.users[u].login, login)
    ensures var w := Run(events); var u := AuthenticatedUser(w, sid).value;
            var after := Run(events + [Administer(EditUser(u.id, login, status, required, reset))]);
            var now := AuthenticatedUser(after, sid);
            && (now.Some? <==> status == Active && !reset)
            && (now.Some? ==> now.value.required == required && now.value.enabled == u.enabled)
  {
    var w := Run(events);
    RunKeepsInv(events);
    assert RowOk(w, w.issued[sid].user);
    var u := AuthenticatedUser(w, sid).value;
    RunOneMore(events, Administer(EditUser(u.id, login, status, required, reset)));
    EditWrites(w, w.issued[sid].user, login, status, required, reset);
  }
}
