/** The session manager's guarantees over whole runs. */
module SessionRuns {
  import opened Wrappers
  import opened Base64
  import opened Sessions
  import opened SessionSafety

  /** The calls follow one another on a clock that never goes back. */
  predicate Timed(calls: seq<Call>, now: int) {
    calls != [] ==> Timely(calls[0], now) && Timed(calls[1..], Ends(calls[0]))
  }

  function EndOfRun(calls: seq<Call>, now: int): int {
    if calls == [] then now else EndOfRun(calls[1..], Ends(calls[0]))
  }

  ghost function Run(c: Config, v: Memory, calls: seq<Call>): Memory
    decreases |calls|
  {
    if calls == [] then v else Run(c, After(c, v, calls[0]).0, calls[1..])
  }

  const EMPTY: Memory := Memory(map[], None, 0)

  /** Every call of a run keeps memory and disk in step: its save succeeds, or fails in time, or makes no difference. */
  ghost predicate AllStayInStep(c: Config, v: Memory, calls: seq<Call>)
    decreases |calls|
  {
    calls != [] ==> StaysInStep(c, v, calls[0]) && AllStayInStep(c, After(c, v, calls[0]).0, calls[1..])
  }

  /** Table and file stay sound over every run: within capacity, sound sessions and records, no duplicate. */
  lemma {:induction false} RunKeepsSane(c: Config, v: Memory, calls: seq<Call>, now: int)
    requires Sane(c, v, now) && Timed(calls, now)
    ensures Sane(c, Run(c, v, calls), EndOfRun(calls, now))
    decreases |calls|
  {
    if calls != [] {
      StepKeepsSane(c, v, now, calls[0]);
      RunKeepsSane(c, After(c, v, calls[0]).0, calls[1..], Ends(calls[0]));
    }
  }

  /** Memory and disk stay in step over a run of such calls. */
  lemma {:induction false} RunKeepsInv(c: Config, v: Memory, calls: seq<Call>, now: int)
    requires Inv(c, v, now) && Timed(calls, now) && AllStayInStep(c, v, calls)
    ensures Inv(c, Run(c, v, calls), EndOfRun(calls, now))
    decreases |calls|
  {
    if calls != [] {
      StepKeepsInv(c, v, now, calls[0]);
      RunKeepsInv(c, After(c, v, calls[0]).0, calls[1..], Ends(calls[0]));
    }
  }

  lemma EmptyIsSound(c: Config, now: int)
    requires ValidConfig(c) && now > 0
    ensures Inv(c, EMPTY, now)
  {
  }

  // ---------- Ended sessions stay ended ----------

  /** The random source of this call never produces the identifier. */
  predicate Avoids(call: Call, id: string) {
    (call.Create? || call.Rotate?) ==> forall i | 0 <= i < |call.random| && call.random[i].Some? :: Encode(call.random[i].value) != id
  }

  predicate AllAvoid(calls: seq<Call>, id: string) {
    forall i | 0 <= i < |calls| :: Avoids(calls[i], id)
  }

  /** An unexpired record of the session is on disk. */
  ghost predicate LiveOnDisk(c: Config, v: Memory, id: string, now: int) {
    c.persistent && exists i :: 0 <= i < |Items(v)| && Items(v)[i].id == id && !Expired(c, Restored(Items(v)[i]), now)
  }

  /** Neither in memory nor, unexpired, on disk. */
  ghost predicate Gone(c: Config, v: Memory, id: string, now: int) {
    id !in v.sessions && !LiveOnDisk(c, v, id, now)
  }

  lemma {:induction false} DrawAvoids(t: Table, random: seq<Option<Seed>>, attempts: nat, id: string)
    requires forall i | 0 <= i < |random| && random[i].Some? :: Encode(random[i].value) != id
    ensures Draw(t, random, attempts).Some? ==> Draw(t, random, attempts).value.0 != id
  {
    if attempts > 0 && random != [] && random[0].Some? {
      DrawAvoids(t, random[1..], attempts - 1, id);
    }
  }

  /** The file is the old one, or holds a table without the session. */
  ghost predicate FileWithout(c: Config, v: Memory, w: Memory, id: string, now: int) {
    w.file == v.file || exists t: Table :: id !in t && (forall k | k in t :: t[k].id == k) && w.file == Some(Saved(c, t, now))
  }

  lemma FileStaysWithout(c: Config, v: Memory, w: Memory, id: string, before: int, now: int)
    requires !LiveOnDisk(c, v, id, before) && before <= now && FileWithout(c, v, w, id, now)
    ensures !LiveOnDisk(c, w, id, now)
  {
    if w.file != v.file {
      var t: Table :| id !in t && (forall k | k in t :: t[k].id == k) && w.file == Some(Saved(c, t, now));
      SavedHolds(c, t, now);
      OnDiskIs(c, Items(w), t, now, id);
    } else {
      OnDiskBefore(c, v, w, id, before, now);
    }
  }

  lemma OnDiskBefore(c: Config, v: Memory, w: Memory, id: string, before: int, now: int)
    requires w.file == v.file && before <= now
    ensures LiveOnDisk(c, w, id, now) ==> LiveOnDisk(c, v, id, before)
  {
    if LiveOnDisk(c, w, id, now) {
      var i :| 0 <= i < |Items(w)| && Items(w)[i].id == id && !Expired(c, Restored(Items(w)[i]), now);
      assert !Expired(c, Restored(Items(v)[i]), before);
    }
  }

  lemma InstalledWithout(c: Config, v: Memory, t: Table, back: Table, s: Session, due: bool, now: int, outcome: Outcome, id: string)
    requires id !in t && id !in back && s.id != id && forall k | k in t :: t[k].id == k
    ensures var w := Install(c, v, t, back, s, due, now, outcome).0; id !in w.sessions && FileWithout(c, v, w, id, now)
  {
    assert id !in Put(t, s) && forall k | k in Put(t, s) :: Put(t, s)[k].id == k;
  }

  lemma GoneAfterCreate(c: Config, v: Memory, call: Call, id: string)
    requires call.Create? && Avoids(call, id) && id !in v.sessions && forall k | k in v.sessions :: v.sessions[k].id == k
    ensures var w := After(c, v, call).0; id !in w.sessions && FileWithout(c, v, w, id, Ends(call))
  {
    var t := Swept(c, v.sessions, call.clock.swept);
    DrawAvoids(t, call.random, 4, id);
    var made := NewSession(t, call.who, call.random, call.clock.created);
    if made.Some? {
      InstalledWithout(c, v, t, t, made.value, call.who.state == Authenticated, call.clock.saved, call.outcome, id);
    }
  }

  lemma GoneAfterRotate(c: Config, v: Memory, call: Call, id: string)
    requires call.Rotate? && Avoids(call, id) && id !in v.sessions && forall k | k in v.sessions :: v.sessions[k].id == k
    ensures var w := After(c, v, call).0; id !in w.sessions && FileWithout(c, v, w, id, Ends(call))
  {
    var t, back := Swept(c, v.sessions - {call.id}, call.clock.swept), PutBack(c, v.sessions, call.id, call.clock.swept);
    DrawAvoids(t, call.random, 4, id);
    var made := NewSession(t, call.who, call.random, call.clock.created);
    if made.Some? {
      InstalledWithout(c, v, t, back, made.value, RotationDue(v, call.id, call.who), call.clock.saved, call.outcome, id);
    }
    RotatedIs(c, v, call.id, call.who, call.clock, call.random, call.outcome);
  }

  /** The outcomes of a rotation. */
  lemma RotatedIs(c: Config, v: Memory, id: string, who: Who, clock: Clock, random: seq<Option<Seed>>, outcome: Outcome)
    ensures var t, back := Swept(c, v.sessions - {id}, clock.swept), PutBack(c, v.sessions, id, clock.swept);
            var made := Made(c, t, who, random, clock.created);
            Rotated(c, v, id, who, clock, random, outcome) ==
              if |t| >= c.maximum then (v.(sessions := t), AtCapacity)
              else if made.None? then (v.(sessions := back), Failed)
              else Install(c, v, t, back, made.value, RotationDue(v, id, who), clock.saved, outcome)
  {
  }

  lemma GoneAfterUse(c: Config, v: Memory, call: Call, id: string)
    requires (call.Get? || call.Destroy?) && id !in v.sessions && forall k | k in v.sessions :: v.sessions[k].id == k
    ensures var w := After(c, v, call).0; id !in w.sessions && FileWithout(c, v, w, id, Ends(call))
  {
    if call.Get? && call.id in v.sessions {
      var t := v.sessions[call.id := v.sessions[call.id].(seen := call.now)];
      assert id !in t && forall k | k in t :: t[k].id == k;
    } else if call.Destroy? {
      var t := v.sessions - {call.id};
      assert id !in t && forall k | k in t :: t[k].id == k;
    }
  }

  lemma GoneAfterRestart(c: Config, v: Memory, now: int, id: string)
    requires Sane(c, v, now) && Gone(c, v, id, now)
    ensures Gone(c, Restarted(c, v, now).0, id, now)
  {
    RestartOpens(c, v, now, id);
  }

  /** A restart opens exactly the sessions with a live record on disk. */
  lemma RestartOpens(c: Config, v: Memory, now: int, id: string)
    requires Sane(c, v, now)
    ensures Restarted(c, v, now).0.file == v.file && (id in Restarted(c, v, now).0.sessions <==> LiveOnDisk(c, v, id, now))
  {
    if c.persistent {
      RestartLoads(c, v, now);
      var t := Restarted(c, v, now).0.sessions;
      if id in t {
        var i :| 0 <= i < |Items(v)| && t[id] == Restored(Items(v)[i]);
        assert Items(v)[i].id == id;
      }
    }
  }

  lemma GoneStaysGone(c: Config, v: Memory, now: int, call: Call, id: string)
    requires Sane(c, v, now) && Timely(call, now) && Avoids(call, id) && Gone(c, v, id, now)
    ensures Gone(c, After(c, v, call).0, id, Ends(call))
  {
    if call.Restart? {
      InvWaits(c, v, now, call.now);
      GoneAfterRestart(c, v, call.now, id);
    } else {
      if call.Create? {
        GoneAfterCreate(c, v, call, id);
      } else if call.Rotate? {
        GoneAfterRotate(c, v, call, id);
      } else {
        GoneAfterUse(c, v, call, id);
      }
      FileStaysWithout(c, v, After(c, v, call).0, id, now, Ends(call));
    }
  }

  /** Nothing brings back a session that is neither in memory nor, unexpired, on disk: no call, no failed
      save, however late it fails, and no restart. */
  lemma {:induction false} EndedSessionsNeverReturn(c: Config, v: Memory, calls: seq<Call>, now: int, id: string)
    requires Sane(c, v, now) && Timed(calls, now) && AllAvoid(calls, id) && Gone(c, v, id, now)
    ensures Gone(c, Run(c, v, calls), id, EndOfRun(calls, now))
    decreases |calls|
  {
    if calls != [] {
      assert Avoids(calls[0], id);
      assert AllAvoid(calls[1..], id) by { forall i | 0 <= i < |calls[1..]| ensures Avoids(calls[1..][i], id) { assert calls[1..][i] == calls[i + 1]; } }
      GoneStaysGone(c, v, now, calls[0], id);
      StepKeepsSane(c, v, now, calls[0]);
      EndedSessionsNeverReturn(c, After(c, v, calls[0]).0, calls[1..], Ends(calls[0]), id);
    }
  }

  /** A restart does bring back a session whose live record is on disk. */
  lemma RestartRevives(c: Config, v: Memory, now: int, id: string)
    requires Sane(c, v, now) && LiveOnDisk(c, v, id, now)
    ensures id in Run(c, v, [Restart(now)]).sessions
  {
    RestartOpens(c, v, now, id);
    assert [Restart(now)][1..] == [];
    assert Run(c, v, [Restart(now)]) == Run(c, Restarted(c, v, now).0, []);
  }

  /** A session not in memory stays away over every run exactly when no live record of it is on disk. */
  lemma StaysAwayExactly(c: Config, v: Memory, now: int, id: string)
    requires Sane(c, v, now) && id !in v.sessions
    ensures (forall calls | Timed(calls, now) && AllAvoid(calls, id) :: id !in Run(c, v, calls).sessions) <==> !LiveOnDisk(c, v, id, now)
  {
    if LiveOnDisk(c, v, id, now) {
      RestartRevives(c, v, now, id);
      var calls := [Restart(now)];
      assert calls[1..] == [] && Timed(calls, now) && AllAvoid(calls, id);
    } else {
      forall calls | Timed(calls, now) && AllAvoid(calls, id) ensures id !in Run(c, v, calls).sessions {
        EndedSessionsNeverReturn(c, v, calls, now, id);
      }
    }
  }

  lemma AbsentIsGone(c: Config, v: Memory, id: string, now: int)
    requires Inv(c, v, now) && id !in v.sessions
    ensures Gone(c, v, id, now)
  {
  }

  /** The call ended its session: a completed logout, or a completed rotation into another identifier. */
  ghost predicate EndsItsSession(c: Config, v: Memory, call: Call) {
    || (call.Destroy? && After(c, v, call).1 == Done)
    || (call.Rotate? && After(c, v, call).1.Opened? && After(c, v, call).1.session.id != call.id)
  }

  lemma EndedIsAbsent(c: Config, v: Memory, call: Call)
    requires EndsItsSession(c, v, call)
    ensures call.id !in After(c, v, call).0.sessions
  {
    if call.Rotate? { RotationReplaces(c, v, call.id, call.who, call.clock, call.random, call.outcome); }
  }

  lemma EndedIsGone(c: Config, v: Memory, now: int, call: Call)
    requires Inv(c, v, now) && Timely(call, now) && EndsItsSession(c, v, call)
    ensures Inv(c, After(c, v, call).0, Ends(call)) && Gone(c, After(c, v, call).0, call.id, Ends(call))
  {
    EndedIsAbsent(c, v, call);
    AnsweredStaysInStep(c, v, call);
    StepKeepsInv(c, v, now, call);
    AbsentIsGone(c, After(c, v, call).0, call.id, Ends(call));
  }

  /** A session that was logged out or rotated away is gone for the rest of the run, however its saves fare. */
  lemma EndedForGood(c: Config, v: Memory, now: int, call: Call, calls: seq<Call>)
    requires Inv(c, v, now) && Timely(call, now) && Timed(calls, Ends(call)) && EndsItsSession(c, v, call)
    requires AllAvoid(calls, call.id)
    ensures call.id !in Run(c, After(c, v, call).0, calls).sessions
  {
    EndedIsGone(c, v, now, call);
    EndedSessionsNeverReturn(c, After(c, v, call).0, calls, Ends(call), call.id);
  }

  lemma AnsweredInTime(c: Config, v: Memory, t: Table, back: Table, s: Session, due: bool, now: int, outcome: Outcome)
    requires Install(c, v, t, back, s, due, now, outcome).1.Opened?
    ensures !FailsLate(c, due, outcome)
  {
  }

  lemma RotatedInTime(c: Config, v: Memory, call: Call)
    requires call.Rotate? && After(c, v, call).1.Opened?
    ensures StaysInStep(c, v, call)
  {
    var t, back := Swept(c, v.sessions - {call.id}, call.clock.swept), PutBack(c, v.sessions, call.id, call.clock.swept);
    RotatedIs(c, v, call.id, call.who, call.clock, call.random, call.outcome);
    var made := Made(c, t, call.who, call.random, call.clock.created);
    AnsweredInTime(c, v, t, back, made.value, RotationDue(v, call.id, call.who), call.clock.saved, call.outcome);
  }

  /** A logout or rotation that is not answered with a failure has not failed late. */
  lemma AnsweredStaysInStep(c: Config, v: Memory, call: Call)
    requires (call.Destroy? && After(c, v, call).1 == Done) || (call.Rotate? && After(c, v, call).1.Opened?)
    ensures StaysInStep(c, v, call)
  {
    if call.Rotate? { RotatedInTime(c, v, call); }
  }

  // ---------- What single calls promise ----------

  /** A rotated session makes way for exactly one new one; every other live session is untouched. */
  lemma RotationReplaces(c: Config, v: Memory, id: string, who: Who, clock: Clock, random: seq<Option<Seed>>, outcome: Outcome)
    requires Rotated(c, v, id, who, clock, random, outcome).1.Opened?
    ensures var (w, reply) := Rotated(c, v, id, who, clock, random, outcome);
            && reply.session.(id := "", csrf := "") == Session("", "", who.state, who.user, who.version, clock.created, clock.created)
            && ValidIdentity(who.state, who.user, who.version)
            && (reply.session.id == id || reply.session.id !in Swept(c, v.sessions, clock.swept))
            && w.sessions == Swept(c, v.sessions - {id}, clock.swept)[reply.session.id := reply.session]
            && (id == reply.session.id || id !in w.sessions)
  {
    var t := Swept(c, v.sessions - {id}, clock.swept);
    var made := NewSession(t, who, random, clock.created).value;
    DrawIsFresh(t, random, 4);
    InstalledSession(c, v, t, PutBack(c, v.sessions, id, clock.swept), made, RotationDue(v, id, who), clock.saved, outcome);
  }

  lemma InstalledSession(c: Config, v: Memory, t: Table, back: Table, s: Session, due: bool, now: int, outcome: Outcome)
    requires Install(c, v, t, back, s, due, now, outcome).1.Opened?
    ensures Install(c, v, t, back, s, due, now, outcome).1 == Opened(s)
    ensures Install(c, v, t, back, s, due, now, outcome).0.sessions == t[s.id := s]
  {
  }

  /** A rotation of a session that is still there is never refused for lack of room. */
  lemma RotationFindsRoom(c: Config, v: Memory, id: string, who: Who, clock: Clock, random: seq<Option<Seed>>, outcome: Outcome)
    requires |v.sessions| <= c.maximum && id in v.sessions
    ensures Rotated(c, v, id, who, clock, random, outcome).1 != AtCapacity
  {
    PresentLeavesRoom(c, v, id, clock.swept);
  }

  /** Every live session is as before. */
  ghost predicate SameLive(c: Config, v: Memory, w: Memory, now: int) {
    && (forall id | id in w.sessions :: id in v.sessions && w.sessions[id] == v.sessions[id])
    && (forall id | id in v.sessions && !Expired(c, v.sessions[id], now) :: id in w.sessions)
  }

  lemma FailedInstall(c: Config, v: Memory, t: Table, back: Table, s: Session, due: bool, now: int, outcome: Outcome)
    requires !Install(c, v, t, back, s, due, now, outcome).1.Opened?
    ensures FailsLate(c, due, outcome) || outcome == Unwritten
    ensures Install(c, v, t, back, s, due, now, outcome).0 ==
            v.(sessions := back, file := if outcome == Late then Some(Saved(c, Put(t, s), now)) else v.file)
  {
  }

  lemma PutBackIsSameLive(c: Config, v: Memory, id: string, clock: Clock)
    requires clock.swept <= clock.saved
    ensures SameLive(c, v, v.(sessions := PutBack(c, v.sessions, id, clock.swept)), clock.saved)
    ensures id !in v.sessions ==> PutBack(c, v.sessions, id, clock.swept) == Swept(c, v.sessions - {id}, clock.swept)
  {
  }

  lemma FailedRotation(c: Config, v: Memory, id: string, who: Who, clock: Clock, random: seq<Option<Seed>>, outcome: Outcome)
    requires |v.sessions| <= c.maximum && clock.swept <= clock.saved
    requires !Rotated(c, v, id, who, clock, random, outcome).1.Opened?
    ensures var w := Rotated(c, v, id, who, clock, random, outcome).0;
            && SameLive(c, v, w, clock.saved)
            && (!RotateFailsLate(c, v, id, who, clock, random, outcome) ==> w.file == v.file)
  {
    if id in v.sessions {
      RotationFindsRoom(c, v, id, who, clock, random, outcome);
    }
    RotatedIs(c, v, id, who, clock, random, outcome);
    PutBackIsSameLive(c, v, id, clock);
    var t, back := Swept(c, v.sessions - {id}, clock.swept), PutBack(c, v.sessions, id, clock.swept);
    var made := Made(c, t, who, random, clock.created);
    if made.Some? {
      FailedInstall(c, v, t, back, made.value, RotationDue(v, id, who), clock.saved, outcome);
    }
  }

  /** Whether the call's save fails after the file has been replaced. */
  predicate IsLate(c: Config, v: Memory, call: Call) {
    match call
    case Create(who, clock, random, outcome) => CreateFailsLate(c, v, who, clock, random, outcome)
    case Rotate(id, who, clock, random, outcome) => RotateFailsLate(c, v, id, who, clock, random, outcome)
    case Destroy(id, _, outcome) => DestroyFailsLate(c, v, id, outcome)
    case _ => false
  }

  /** A refused or failed call agrees with the table before it on every live session, and leaves the file
      alone unless its save failed late. */
  lemma FailureChangesNothing(c: Config, v: Memory, call: Call)
    requires |v.sessions| <= c.maximum && Timely(call, if call.Create? || call.Rotate? then call.clock.swept else call.now)
    requires !call.Get? && !call.Restart?
    requires After(c, v, call).1 == AtCapacity || After(c, v, call).1 == Failed
    ensures SameLive(c, v, After(c, v, call).0, Ends(call))
    ensures !IsLate(c, v, call) ==> After(c, v, call).0.file == v.file
  {
    if call.Rotate? {
      FailedRotation(c, v, call.id, call.who, call.clock, call.random, call.outcome);
    }
  }

  /** Saving and restarting at one clock reading gives back exactly the live authenticated sessions. */
  lemma SaveThenRestart(c: Config, v: Memory, now: int, ended: int, id: string)
    requires Sane(c, v, now) && c.persistent
    ensures var t := Restarted(c, Save(c, v, now, Written(ended)).0, now).0.sessions;
            && (id in t <==> id in v.sessions && Lives(c, v.sessions[id], now))
            && (id in t ==> t[id] == v.sessions[id])
  {
    var w := Save(c, v, now, Written(ended)).0;
    SaveBringsIntoStep(c, v, v.sessions, now, ended);
    SavedHolds(c, v.sessions, now);
    FileComesBack(c, w, v.sessions, now, id);
  }

  /** A file that holds a table comes back as its live authenticated sessions. */
  lemma FileComesBack(c: Config, w: Memory, t: Table, now: int, id: string)
    requires Sane(c, w, now) && c.persistent && Holds(c, Items(w), t, now) && forall k | k in t :: t[k].id == k
    ensures var back := Restarted(c, w, now).0.sessions;
            (id in back <==> id in t && Lives(c, t[id], now)) && (id in back ==> back[id] == t[id])
  {
    RestartLoads(c, w, now);
    var back := Restarted(c, w, now).0.sessions;
    if id in back {
      var i :| 0 <= i < |Items(w)| && back[id] == Restored(Items(w)[i]);
      assert Items(w)[i].id == id;
    }
    if id in t && Lives(c, t[id], now) {
      var i :| 0 <= i < |Items(w)| && Items(w)[i].id == id;
      assert Restored(Items(w)[i]) == t[id];
    }
  }

  // ---------- What a save that fails late does to its caller ----------

  lemma LateComesBack(c: Config, v: Memory, t: Table, back: Table, s: Session, now: int, id: string)
    requires c.persistent && TableOk(c, Put(t, s), now)
    requires Sane(c, v.(sessions := back, file := Some(Saved(c, Put(t, s), now))), now)
    ensures var u := Restarted(c, v.(sessions := back, file := Some(Saved(c, Put(t, s), now))), now).0.sessions;
            (id in u <==> id in Put(t, s) && Lives(c, Put(t, s)[id], now)) && (id in u ==> u[id] == Put(t, s)[id])
  {
    SavedHolds(c, Put(t, s), now);
    FileComesBack(c, v.(sessions := back, file := Some(Saved(c, Put(t, s), now))), Put(t, s), now, id);
  }

  /** A creation whose save fails late is answered with a failure, and yet a restart opens its session
      exactly when that session is live. */
  lemma LateCreationComesBack(c: Config, v: Memory, who: Who, clock: Clock, random: seq<Option<Seed>>)
    requires Sane(c, v, clock.saved) && 0 < clock.swept <= clock.created <= clock.saved
    requires CreateFailsLate(c, v, who, clock, random, Late)
    ensures var s := Made(c, Swept(c, v.sessions, clock.swept), who, random, clock.created).value;
            var (w, reply) := Created(c, v, who, clock, random, Late); var u := Restarted(c, w, clock.saved).0.sessions;
            && reply == Failed && s.id !in w.sessions
            && (s.id in u <==> Lives(c, s, clock.saved)) && (s.id in u ==> u[s.id] == s)
  {
    var now, t := clock.saved, Swept(c, v.sessions, clock.swept);
    SweptKeepsInv(c, v, clock.swept, now);
    MadeJoins(c, t, who, random, clock.created, None, now);
    var s := Made(c, t, who, random, clock.created).value;
    JoiningFits(c, t, s, None, now);
    CreateKeepsSane(c, v, who, clock, random, Late);
    LateComesBack(c, v, t, t, s, now, s.id);
  }

  lemma FirstDraw(c: Config, who: Who, a: Seed, b: Seed, now: int)
    requires ValidConfig(c) && ValidIdentity(who.state, who.user, who.version)
    ensures Made(c, map[], who, [Some(a), Some(b)], now)
              == Some(Session(Encode(a), Encode(b), who.state, who.user, who.version, now, now))
    ensures Swept(c, EMPTY.sessions, now) == map[]
  {
    var none: Table := map[];
    assert |none| == 0;
  }

  /** In a manager that has just started, whatever the time, a session whose creation was answered with a
      failure is open after the next start. */
  lemma FailedCreationOpens(c: Config, who: Who, a: Seed, b: Seed, now: int) returns (call: Call)
    requires ValidConfig(c) && c.persistent && who.state == Authenticated && who.user >= 1 && who.version >= 1 && now > 0
    ensures call == Create(who, Clock(now, now, now), [Some(a), Some(b)], Late) && After(c, EMPTY, call).1 == Failed
    ensures After(c, EMPTY, call).0.sessions == map[]
    ensures Encode(a) in Restarted(c, After(c, EMPTY, call).0, now).0.sessions
  {
    var clock, random := Clock(now, now, now), [Some(a), Some(b)];
    call := Create(who, clock, random, Late);
    EmptyIsSound(c, now);
    FirstDraw(c, who, a, b, now);
    LateCreationComesBack(c, EMPTY, who, clock, random);
  }

  /** A rotation whose save fails late is answered with a failure, and yet a restart opens the new session,
      exactly when it is live, and drops the old one that memory still holds. */
  lemma LateRotationComesBack(c: Config, v: Memory, id: string, who: Who, clock: Clock, random: seq<Option<Seed>>)
    requires Sane(c, v, clock.saved) && 0 < clock.swept <= clock.created <= clock.saved
    requires RotateFailsLate(c, v, id, who, clock, random, Late)
    ensures var s := Made(c, Swept(c, v.sessions - {id}, clock.swept), who, random, clock.created).value;
            var (w, reply) := Rotated(c, v, id, who, clock, random, Late); var u := Restarted(c, w, clock.saved).0.sessions;
            && reply == Failed && (id in v.sessions ==> id in w.sessions && w.sessions[id] == v.sessions[id])
            && (s.id in u <==> Lives(c, s, clock.saved)) && (s.id in u ==> u[s.id] == s)
            && (s.id != id ==> id !in u)
  {
    var now, t := clock.saved, Swept(c, v.sessions - {id}, clock.swept);
    RotationTable(c, v, id, clock);
    MadeJoins(c, t, who, random, clock.created, Previous(v, id), now);
    var s := Made(c, t, who, random, clock.created).value;
    JoiningFits(c, t, s, Previous(v, id), now);
    RotateKeepsSane(c, v, id, who, clock, random, Late);
    RotationInstalls(c, v, id, who, clock, random, Late);
    LateComesBack(c, v, t, Back(t, Previous(v, id)), s, now, s.id);
    LateComesBack(c, v, t, Back(t, Previous(v, id)), s, now, id);
  }

  /** A logout whose save fails late is answered with a failure and leaves the session in memory, but a restart drops it. */
  lemma LateLogoutIsDropped(c: Config, v: Memory, id: string, now: int)
    requires Sane(c, v, now) && DestroyFailsLate(c, v, id, Late)
    ensures var (w, reply) := Destroyed(c, v, id, now, Late);
            reply == Failed && w.sessions == v.sessions && id !in Restarted(c, w, now).0.sessions
  {
    DestroyKeepsSane(c, v, id, now, Late);
    SavedHolds(c, v.sessions - {id}, now);
    FileComesBack(c, Destroyed(c, v, id, now, Late).0, v.sessions - {id}, now, id);
  }
}
