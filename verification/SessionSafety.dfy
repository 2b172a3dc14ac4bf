/** What every call on the session manager keeps, restarts and failed saves included, and exactly when
    a save that fails late puts memory and disk out of step. */
module SessionSafety {
  import opened Wrappers
  import opened Ordering
  import opened Base64
  import opened Sessions

  ghost predicate SessionOk(s: Session, now: int) {
    && ValidToken(s.id) && ValidToken(s.csrf) && ValidIdentity(s.state, s.user, s.version)
    && 0 < s.created <= s.seen <= now
  }

  /** A record that describes session s as it is or as it was when last saved. */
  ghost predicate Describes(r: Record, s: Session) {
    && s.state == Authenticated && r.id == s.id && r.csrf == s.csrf && r.user == s.user && r.version == s.version
    && r.created == s.created && r.seen <= s.seen
  }

  function Items(v: Memory): seq<Record> {
    if v.file.Some? then v.file.value else []
  }

  ghost predicate TableOk(c: Config, t: Table, now: int) {
    && |t| <= c.maximum
    && (forall id | id in t :: t[id].id == id && SessionOk(t[id], now))
  }

  ghost predicate FileOk(c: Config, items: seq<Record>, now: int) {
    && |items| <= c.maximum
    && (forall i | 0 <= i < |items| :: SessionOk(Restored(items[i]), now))
    && (forall i, j | 0 <= i < j < |items| :: items[i].id != items[j].id)
  }

  ghost predicate OnDisk(items: seq<Record>, id: string) {
    exists i :: 0 <= i < |items| && items[i].id == id
  }

  /** No unexpired record without its live session. */
  ghost predicate NothingStale(c: Config, t: Table, items: seq<Record>, now: int) {
    forall i | 0 <= i < |items| && !Expired(c, Restored(items[i]), now) ::
      items[i].id in t && Describes(items[i], t[items[i].id])
  }

  /** No unexpired authenticated session without its record. */
  ghost predicate NothingMissing(c: Config, t: Table, items: seq<Record>, now: int) {
    forall id | id in t && t[id].state == Authenticated && !Expired(c, t[id], now) :: OnDisk(items, id)
  }

  /** Whatever happens, the table and the file are sound each for itself. */
  ghost predicate Sane(c: Config, v: Memory, now: int) {
    && ValidConfig(c) && now > 0
    && TableOk(c, v.sessions, now) && FileOk(c, Items(v), now)
    && (!c.persistent ==> v.file == None)
  }

  /** Memory and disk agree on the live authenticated sessions. */
  ghost predicate InStep(c: Config, v: Memory, now: int) {
    c.persistent ==> NothingStale(c, v.sessions, Items(v), now) && NothingMissing(c, v.sessions, Items(v), now)
  }

  ghost predicate Inv(c: Config, v: Memory, now: int) {
    Sane(c, v, now) && InStep(c, v, now)
  }

  lemma InvWaits(c: Config, v: Memory, now: int, later: int)
    requires Sane(c, v, now) && now <= later
    ensures Sane(c, v, later) && (InStep(c, v, now) ==> InStep(c, v, later))
  {
    forall i | 0 <= i < |Items(v)| && !Expired(c, Restored(Items(v)[i]), later)
      ensures !Expired(c, Restored(Items(v)[i]), now) {}
  }

  // ---------- A save and what it writes ----------

  /** A save writes exactly the live authenticated sessions, once each. */
  lemma SavedExactly(c: Config, t: Table, now: int)
    requires forall id | id in t :: t[id].id == id
    ensures forall i, j | 0 <= i < j < |Saved(c, t, now)| :: Saved(c, t, now)[i].id != Saved(c, t, now)[j].id
    ensures forall i | 0 <= i < |Saved(c, t, now)| ::
              var r := Saved(c, t, now)[i]; r.id in SavedIds(c, t, now) && r == RecordOf(t[r.id])
    ensures forall id | id in SavedIds(c, t, now) :: OnDisk(Saved(c, t, now), id)
  {
    var ids := Listing(SavedIds(c, t, now));
    var items := Saved(c, t, now);
    forall i | 0 <= i < |ids| ensures ids[i] in SavedIds(c, t, now) && items[i].id == ids[i] {
      assert ids[i] in Elements(ids);
    }
    forall i, j | 0 <= i < j < |ids| ensures ids[i] != ids[j] {
      LessIsStrict(ids[i], ids[j]);
    }
    forall id | id in SavedIds(c, t, now) ensures OnDisk(items, id) {
      assert id in Elements(ids);
      var i :| 0 <= i < |ids| && ids[i] == id;
      assert items[i].id == id;
    }
  }

  lemma {:induction false} SortedFits(ids: seq<string>, s: set<string>)
    requires Sorted(ids) && Elements(ids) == s
    ensures |ids| == |s|
  {
    if ids == [] {
    } else {
      var last := |ids| - 1;
      var init := ids[..last];
      assert forall i | 0 <= i < last :: Less(ids[i], ids[last]);
      LessIsStrict(ids[last], ids[last]);
      assert ids[last] in s;
      assert ids == init + [ids[last]];
      assert Elements(init) == s - {ids[last]};
      SortedFits(init, s - {ids[last]});
    }
  }

  lemma SavedIsOk(c: Config, t: Table, now: int)
    requires ValidConfig(c) && now > 0 && TableOk(c, t, now)
    ensures FileOk(c, Saved(c, t, now), now)
    ensures NothingStale(c, t, Saved(c, t, now), now) && NothingMissing(c, t, Saved(c, t, now), now)
  {
    SavedExactly(c, t, now);
    var ids := SavedIds(c, t, now);
    SortedFits(Listing(ids), ids);
    assert ids <= t.Keys;
    Cardinality(ids, t.Keys);
    assert |t.Keys| == |t|;
  }

  lemma {:induction false} Cardinality<T>(a: set<T>, b: set<T>)
    requires a <= b
    ensures |a| <= |b| && (|a| == |b| ==> a == b)
  {
    if a == {} {
    } else {
      var x :| x in a;
      Cardinality(a - {x}, b - {x});
    }
  }

  /** A save that succeeds brings memory and disk into step, whatever state they were in. */
  lemma SaveBringsIntoStep(c: Config, v: Memory, t: Table, now: int, ended: int)
    requires Sane(c, v, now) && TableOk(c, t, now)
    ensures Inv(c, Save(c, v.(sessions := t), now, Written(ended)).0, now)
  {
    SavedIsOk(c, t, now);
  }

  /** A save keeps table and file sound, whatever becomes of it. */
  lemma SaveKeepsSane(c: Config, v: Memory, t: Table, now: int, outcome: Outcome)
    requires Sane(c, v, now) && TableOk(c, t, now)
    ensures Sane(c, Save(c, v.(sessions := t), now, outcome).0, now)
  {
    SavedIsOk(c, t, now);
  }

  // ---------- Changes to the table that need no save ----------

  lemma DropKeepsSane(c: Config, v: Memory, t: Table, now: int)
    requires Sane(c, v, now) && t.Keys <= v.sessions.Keys && forall id | id in t :: t[id] == v.sessions[id]
    ensures Sane(c, v.(sessions := t), now)
  {
    DroppedFits(c, v.sessions, t, now);
  }

  /** Dropping expired sessions leaves memory and disk in step. */
  lemma DropKeepsInv(c: Config, v: Memory, t: Table, now: int)
    requires Inv(c, v, now)
    requires t.Keys <= v.sessions.Keys && forall id | id in t :: t[id] == v.sessions[id]
    requires forall id | id in v.sessions && id !in t :: v.sessions[id].state == Authenticated ==> Expired(c, v.sessions[id], now)
    ensures Inv(c, v.(sessions := t), now)
  {
    DropKeepsSane(c, v, t, now);
  }

  /** So does adding a session that is not authenticated. */
  lemma AddKeepsInv(c: Config, v: Memory, s: Session, now: int)
    requires Inv(c, v, now) && SessionOk(s, now)
    requires s.id !in v.sessions && |v.sessions| < c.maximum && s.state != Authenticated
    ensures Inv(c, v.(sessions := Put(v.sessions, s)), now)
  {
    AddedFits(c, v.sessions, s, now);
    if c.persistent { AddAgrees(c, v.sessions, Items(v), s, now); }
  }

  lemma AddAgrees(c: Config, t: Table, items: seq<Record>, s: Session, now: int)
    requires s.id !in t && s.state != Authenticated && NothingStale(c, t, items, now) && NothingMissing(c, t, items, now)
    ensures NothingStale(c, Put(t, s), items, now) && NothingMissing(c, Put(t, s), items, now)
  {
  }

  lemma AddedFits(c: Config, t: Table, s: Session, now: int)
    requires TableOk(c, t, now) && SessionOk(s, now) && s.id !in t && |t| < c.maximum
    ensures TableOk(c, Put(t, s), now)
  {
    assert Put(t, s).Keys == t.Keys + {s.id};
    assert |Put(t, s).Keys| == |Put(t, s)| && |t.Keys| == |t|;
  }

  lemma TouchedFits(c: Config, t: Table, id: string, now: int)
    requires TableOk(c, t, now) && id in t
    ensures TableOk(c, t[id := t[id].(seen := now)], now)
  {
    var u := t[id := t[id].(seen := now)];
    assert u.Keys == t.Keys;
    assert |u.Keys| == |u| && |t.Keys| == |t|;
  }

  /** So does marking a live session as seen. */
  lemma TouchKeepsInv(c: Config, v: Memory, id: string, now: int)
    requires Inv(c, v, now) && id in v.sessions && !Expired(c, v.sessions[id], now)
    ensures Inv(c, v.(sessions := v.sessions[id := v.sessions[id].(seen := now)]), now)
  {
    var t, items := v.sessions[id := v.sessions[id].(seen := now)], Items(v);
    TouchedFits(c, v.sessions, id, now);
    if c.persistent {
      forall i | 0 <= i < |items| && !Expired(c, Restored(items[i]), now)
        ensures items[i].id in t && Describes(items[i], t[items[i].id])
      {
        assert Describes(items[i], v.sessions[items[i].id]);
      }
      forall k | k in t && t[k].state == Authenticated && !Expired(c, t[k], now) ensures OnDisk(items, k) {}
    }
  }

  // ---------- A save that fails late ----------

  /** Authenticated and not expired: a session that belongs on disk. */
  predicate Lives(c: Config, s: Session, now: int) {
    s.state == Authenticated && !Expired(c, s, now)
  }

  function Back(t: Table, previous: Option<Session>): Table {
    if previous.Some? then Put(t, previous.value) else t
  }

  /** Whether a late failure goes unnoticed: the session taken back is not on disk, and the one put back
      is not missed there. Only when the random source drew the old identifier again can one stand for the other. */
  predicate LateAgrees(c: Config, s: Session, previous: Option<Session>, now: int) {
    if previous.Some? && previous.value.id == s.id then
      if Lives(c, s, now) then previous.value == s.(seen := previous.value.seen) && s.seen <= previous.value.seen
      else !Lives(c, previous.value, now)
    else !Lives(c, s, now) && (previous.Some? ==> !Lives(c, previous.value, now))
  }

  /** What is known of a table, a session that joined it, and one that was taken out of it. */
  ghost predicate Joining(c: Config, t: Table, s: Session, previous: Option<Session>, now: int) {
    && ValidConfig(c) && now > 0 && TableOk(c, t, now) && |t| < c.maximum && SessionOk(s, now) && s.id !in t
    && (previous.Some? ==> previous.value.id !in t && SessionOk(previous.value, now))
  }

  lemma JoiningFits(c: Config, t: Table, s: Session, previous: Option<Session>, now: int)
    requires Joining(c, t, s, previous, now)
    ensures TableOk(c, Put(t, s), now) && TableOk(c, Back(t, previous), now)
  {
    AddedFits(c, t, s, now);
    if previous.Some? { AddedFits(c, t, previous.value, now); }
  }

  /** The file holds exactly the live authenticated sessions of a table. */
  ghost predicate Holds(c: Config, items: seq<Record>, t: Table, now: int) {
    && (forall i | 0 <= i < |items| :: items[i].id in t && Lives(c, t[items[i].id], now) && items[i] == RecordOf(t[items[i].id]))
    && (forall id | id in t && Lives(c, t[id], now) :: OnDisk(items, id))
  }

  lemma SavedHolds(c: Config, t: Table, now: int)
    requires forall id | id in t :: t[id].id == id
    ensures Holds(c, Saved(c, t, now), t, now)
  {
    SavedExactly(c, t, now);
    forall id | id in t && Lives(c, t[id], now) ensures OnDisk(Saved(c, t, now), id) { assert id in SavedIds(c, t, now); }
  }

  lemma StaleIfLive(c: Config, items: seq<Record>, t: Table, s: Session, previous: Option<Session>, now: int)
    requires Joining(c, t, s, previous, now) && Holds(c, items, Put(t, s), now) && Lives(c, s, now)
    requires NothingStale(c, Back(t, previous), items, now)
    ensures previous.Some? && Describes(RecordOf(s), previous.value)
  {
    assert OnDisk(items, s.id) by { assert Put(t, s)[s.id] == s; }
    var i :| 0 <= i < |items| && items[i].id == s.id;
    assert items[i] == RecordOf(s) && Restored(items[i]) == s;
  }

  lemma NotStale(c: Config, items: seq<Record>, t: Table, s: Session, previous: Option<Session>, now: int)
    requires Joining(c, t, s, previous, now) && Holds(c, items, Put(t, s), now)
    requires Lives(c, s, now) ==> previous.Some? && Describes(RecordOf(s), previous.value)
    ensures NothingStale(c, Back(t, previous), items, now)
  {
    var back := Back(t, previous);
    forall i | 0 <= i < |items| ensures items[i].id in back && Describes(items[i], back[items[i].id]) {
      if items[i].id != s.id {
        assert items[i] == RecordOf(t[items[i].id]) && back[items[i].id] == t[items[i].id];
      }
    }
  }

  lemma OnDiskIs(c: Config, items: seq<Record>, t: Table, now: int, id: string)
    requires Holds(c, items, t, now)
    ensures OnDisk(items, id) <==> id in t && Lives(c, t[id], now)
  {
    if OnDisk(items, id) {
      var i :| 0 <= i < |items| && items[i].id == id;
      assert items[i].id in t;
    }
  }

  lemma MissingIfLive(c: Config, items: seq<Record>, t: Table, s: Session, p: Session, now: int)
    requires Joining(c, t, s, Some(p), now) && Holds(c, items, Put(t, s), now) && Lives(c, p, now)
    requires NothingMissing(c, Put(t, p), items, now)
    ensures p.id == s.id && Lives(c, s, now)
  {
    assert Put(t, p)[p.id] == p;
    OnDiskIs(c, items, Put(t, s), now, p.id);
  }

  lemma NotMissing(c: Config, items: seq<Record>, t: Table, s: Session, previous: Option<Session>, now: int)
    requires Joining(c, t, s, previous, now) && Holds(c, items, Put(t, s), now)
    requires previous.Some? && Lives(c, previous.value, now) ==> previous.value.id == s.id && Lives(c, s, now)
    ensures NothingMissing(c, Back(t, previous), items, now)
  {
    var back := Back(t, previous);
    forall id | id in back && Lives(c, back[id], now) ensures OnDisk(items, id) { OnDiskIs(c, items, Put(t, s), now, id); }
  }

  /** A session taken back must not be on disk, nor one put back be missing there. */
  lemma LateFile(c: Config, items: seq<Record>, t: Table, s: Session, previous: Option<Session>, now: int)
    requires Joining(c, t, s, previous, now) && Holds(c, items, Put(t, s), now)
    ensures NothingStale(c, Back(t, previous), items, now) <==>
            (Lives(c, s, now) ==> previous.Some? && Describes(RecordOf(s), previous.value))
    ensures NothingMissing(c, Back(t, previous), items, now) <==>
            (previous.Some? && Lives(c, previous.value, now) ==> previous.value.id == s.id && Lives(c, s, now))
  {
    if Lives(c, s, now) && NothingStale(c, Back(t, previous), items, now) {
      StaleIfLive(c, items, t, s, previous, now);
    }
    if Lives(c, s, now) ==> previous.Some? && Describes(RecordOf(s), previous.value) {
      NotStale(c, items, t, s, previous, now);
    }
    if previous.Some? && Lives(c, previous.value, now) && NothingMissing(c, Back(t, previous), items, now) {
      MissingIfLive(c, items, t, s, previous.value, now);
    }
    if previous.Some? && Lives(c, previous.value, now) ==> previous.value.id == s.id && Lives(c, s, now) {
      NotMissing(c, items, t, s, previous, now);
    }
  }

  lemma LateAgreesIs(c: Config, s: Session, previous: Option<Session>, now: int)
    ensures LateAgrees(c, s, previous, now) <==>
            && (Lives(c, s, now) ==> previous.Some? && Describes(RecordOf(s), previous.value))
            && (previous.Some? && Lives(c, previous.value, now) ==> previous.value.id == s.id && Lives(c, s, now))
  {
  }

  lemma LateMemory(c: Config, items: seq<Record>, t: Table, s: Session, previous: Option<Session>, last: int, now: int)
    requires Joining(c, t, s, previous, now) && c.persistent && Holds(c, items, Put(t, s), now)
    ensures InStep(c, Memory(Back(t, previous), Some(items), last), now) <==> LateAgrees(c, s, previous, now)
  {
    LateFile(c, items, t, s, previous, now);
    LateAgreesIs(c, s, previous, now);
  }

  /** Exactly when a late failure leaves memory and disk in step. */
  lemma LateStep(c: Config, t: Table, s: Session, previous: Option<Session>, last: int, now: int)
    requires Joining(c, t, s, previous, now) && c.persistent
    ensures var w := Memory(Back(t, previous), Some(Saved(c, Put(t, s), now)), last);
            Sane(c, w, now) && (InStep(c, w, now) <==> LateAgrees(c, s, previous, now))
  {
    JoiningFits(c, t, s, previous, now);
    SavedIsOk(c, Put(t, s), now);
    SavedHolds(c, Put(t, s), now);
    LateMemory(c, Saved(c, Put(t, s), now), t, s, previous, last, now);
  }

  // ---------- A new session ----------

  lemma {:induction false} DrawIsFresh(t: Table, random: seq<Option<Seed>>, attempts: nat)
    ensures var d := Draw(t, random, attempts);
            d.Some? ==> d.value.0 !in t && ValidToken(d.value.0) && ValidToken(d.value.1)
  {
    if attempts > 0 && random != [] && random[0].Some? {
      RoundTrip(random[0].value, true);
      if Encode(random[0].value) in t {
        DrawIsFresh(t, random[1..], attempts - 1);
      } else if |random| >= 2 && random[1].Some? {
        RoundTrip(random[1].value, true);
      }
    }
  }

  lemma NewSessionIsOk(t: Table, who: Who, random: seq<Option<Seed>>, now: int)
    requires now > 0
    ensures var s := NewSession(t, who, random, now); s.Some? ==> s.value.id !in t && SessionOk(s.value, now) && s.value.state == who.state
  {
    DrawIsFresh(t, random, 4);
  }

  /** Whether the save of an installation is made and fails late. */
  predicate FailsLate(c: Config, due: bool, outcome: Outcome) {
    c.persistent && due && outcome == Late
  }

  /** Exactly when an installation leaves memory and disk in step. */
  lemma InstallStep(c: Config, v: Memory, t: Table, s: Session, previous: Option<Session>, due: bool, now: int, outcome: Outcome)
    requires Inv(c, v, now) && Joining(c, t, s, previous, now)
    requires Inv(c, v.(sessions := Back(t, previous)), now)
    requires !due ==> s.state != Authenticated && Inv(c, v.(sessions := t), now)
    ensures var w := Install(c, v, t, Back(t, previous), s, due, now, outcome).0;
            Sane(c, w, now) && (InStep(c, w, now) <==> (FailsLate(c, due, outcome) ==> LateAgrees(c, s, previous, now)))
  {
    JoiningFits(c, t, s, previous, now);
    if !due {
      AddKeepsInv(c, v.(sessions := t), s, now);
    } else if FailsLate(c, due, outcome) {
      LateStep(c, t, s, previous, v.last, now);
    } else {
      SaveBringsIntoStep(c, v, Put(t, s), now, if outcome.Written? then outcome.ended else now);
    }
  }

  lemma InstallKeepsSane(c: Config, v: Memory, t: Table, s: Session, previous: Option<Session>, due: bool, now: int, outcome: Outcome)
    requires Sane(c, v, now) && Joining(c, t, s, previous, now)
    ensures Sane(c, Install(c, v, t, Back(t, previous), s, due, now, outcome).0, now)
  {
    JoiningFits(c, t, s, previous, now);
    SavedIsOk(c, Put(t, s), now);
  }

  /** The session a creation or rotation makes, if it gets that far. */
  function Made(c: Config, t: Table, who: Who, random: seq<Option<Seed>>, now: int): Option<Session> {
    if |t| >= c.maximum then None else NewSession(t, who, random, now)
  }

  lemma MadeJoins(c: Config, t: Table, who: Who, random: seq<Option<Seed>>, created: int, previous: Option<Session>, now: int)
    requires ValidConfig(c) && 0 < created <= now && TableOk(c, t, now) && Made(c, t, who, random, created).Some?
    requires previous.Some? ==> previous.value.id !in t && SessionOk(previous.value, now)
    ensures Joining(c, t, Made(c, t, who, random, created).value, previous, now)
    ensures Made(c, t, who, random, created).value.state == who.state
  {
    NewSessionIsOk(t, who, random, created);
  }

  // ---------- Creating ----------

  predicate CreateFailsLate(c: Config, v: Memory, who: Who, clock: Clock, random: seq<Option<Seed>>, outcome: Outcome) {
    FailsLate(c, who.state == Authenticated, outcome) && Made(c, Swept(c, v.sessions, clock.swept), who, random, clock.created).Some?
  }

  lemma SweptKeepsInv(c: Config, v: Memory, swept: int, now: int)
    requires Sane(c, v, now) && swept <= now
    ensures var w := v.(sessions := Swept(c, v.sessions, swept)); Sane(c, w, now) && (InStep(c, v, now) ==> InStep(c, w, now))
  {
    var t := Swept(c, v.sessions, swept);
    DropKeepsSane(c, v, t, now);
    if InStep(c, v, now) { DropKeepsInv(c, v, t, now); }
  }

  /** Exactly when a creation leaves memory and disk in step: unless its save fails late on a live session. */
  lemma CreateStep(c: Config, v: Memory, who: Who, clock: Clock, random: seq<Option<Seed>>, outcome: Outcome)
    requires Inv(c, v, clock.saved) && 0 < clock.swept <= clock.created <= clock.saved
    ensures var w := Created(c, v, who, clock, random, outcome).0;
            var made := Made(c, Swept(c, v.sessions, clock.swept), who, random, clock.created);
            && Sane(c, w, clock.saved)
            && (InStep(c, w, clock.saved) <==>
                  !(CreateFailsLate(c, v, who, clock, random, outcome) && Lives(c, made.value, clock.saved)))
  {
    var now, t := clock.saved, Swept(c, v.sessions, clock.swept);
    SweptKeepsInv(c, v, clock.swept, now);
    var made := Made(c, t, who, random, clock.created);
    if made.Some? {
      MadeJoins(c, t, who, random, clock.created, None, now);
      InstallStep(c, v, t, made.value, None, who.state == Authenticated, now, outcome);
    }
  }

  lemma CreateKeepsSane(c: Config, v: Memory, who: Who, clock: Clock, random: seq<Option<Seed>>, outcome: Outcome)
    requires Sane(c, v, clock.saved) && 0 < clock.swept <= clock.created <= clock.saved
    ensures Sane(c, Created(c, v, who, clock, random, outcome).0, clock.saved)
  {
    var t := Swept(c, v.sessions, clock.swept);
    SweptKeepsInv(c, v, clock.swept, clock.saved);
    if Made(c, t, who, random, clock.created).Some? {
      MadeJoins(c, t, who, random, clock.created, None, clock.saved);
      InstallKeepsSane(
        c, v, t, Made(c, t, who, random, clock.created).value, None, who.state == Authenticated, clock.saved, outcome);
    }
  }

  // ---------- Rotating ----------

  function Previous(v: Memory, id: string): Option<Session> {
    if id in v.sessions then Some(v.sessions[id]) else None
  }

  predicate RotationDue(v: Memory, id: string, who: Who) {
    who.state == Authenticated || (id in v.sessions && v.sessions[id].state == Authenticated)
  }

  predicate RotateFailsLate(c: Config, v: Memory, id: string, who: Who, clock: Clock, random: seq<Option<Seed>>, outcome: Outcome) {
    FailsLate(c, RotationDue(v, id, who), outcome) && Made(c, Swept(c, v.sessions - {id}, clock.swept), who, random, clock.created).Some?
  }

  /** The table a rotation installs its session in, the session it takes out, and what a failure goes back to. */
  lemma RotationTable(c: Config, v: Memory, id: string, clock: Clock)
    requires Sane(c, v, clock.saved) && clock.swept <= clock.saved
    ensures var t := Swept(c, v.sessions - {id}, clock.swept);
            && TableOk(c, t, clock.saved) && id !in t
            && (id in v.sessions ==> |t| < c.maximum && v.sessions[id].id == id && SessionOk(v.sessions[id], clock.saved))
            && PutBack(c, v.sessions, id, clock.swept) == Back(t, Previous(v, id))
  {
    DroppedFits(c, v.sessions, Swept(c, v.sessions - {id}, clock.swept), clock.saved);
    if id in v.sessions { PresentLeavesRoom(c, v, id, clock.swept); }
  }

  lemma PutBackKeepsSane(c: Config, v: Memory, id: string, clock: Clock)
    requires Sane(c, v, clock.saved)
    ensures Sane(c, v.(sessions := PutBack(c, v.sessions, id, clock.swept)), clock.saved)
  {
    DropKeepsSane(c, v, PutBack(c, v.sessions, id, clock.swept), clock.saved);
  }

  lemma PutBackKeepsInv(c: Config, v: Memory, id: string, clock: Clock)
    requires Inv(c, v, clock.saved) && clock.swept <= clock.saved
    ensures Inv(c, v.(sessions := PutBack(c, v.sessions, id, clock.swept)), clock.saved)
  {
    var t := PutBack(c, v.sessions, id, clock.swept);
    assert forall k | k in v.sessions :: k in t <==> k == id || !Expired(c, v.sessions[k], clock.swept);
    DropKeepsInv(c, v, t, clock.saved);
  }

  lemma TakenOutKeepsInv(c: Config, v: Memory, id: string, clock: Clock)
    requires Inv(c, v, clock.saved) && clock.swept <= clock.saved && (id in v.sessions ==> v.sessions[id].state != Authenticated)
    ensures Inv(c, v.(sessions := Swept(c, v.sessions - {id}, clock.swept)), clock.saved)
  {
    DropKeepsInv(c, v, Swept(c, v.sessions - {id}, clock.swept), clock.saved);
  }

  lemma RotationGivesBack(c: Config, v: Memory, id: string, who: Who, clock: Clock, random: seq<Option<Seed>>, outcome: Outcome)
    requires Sane(c, v, clock.saved) && clock.swept <= clock.saved
    requires Made(c, Swept(c, v.sessions - {id}, clock.swept), who, random, clock.created).None?
    ensures Rotated(c, v, id, who, clock, random, outcome).0 == v.(sessions := PutBack(c, v.sessions, id, clock.swept))
  {
    RotationTable(c, v, id, clock);
  }

  lemma RotationInstalls(c: Config, v: Memory, id: string, who: Who, clock: Clock, random: seq<Option<Seed>>, outcome: Outcome)
    requires Sane(c, v, clock.saved) && clock.swept <= clock.saved
    requires Made(c, Swept(c, v.sessions - {id}, clock.swept), who, random, clock.created).Some?
    ensures var t := Swept(c, v.sessions - {id}, clock.swept);
            Rotated(c, v, id, who, clock, random, outcome) ==
              Install(c, v, t, Back(t, Previous(v, id)), Made(c, t, who, random, clock.created).value, RotationDue(v, id, who),
                      clock.saved, outcome)
  {
    RotationTable(c, v, id, clock);
  }

  /** Exactly when a rotation leaves memory and disk in step. */
  lemma RotateStep(c: Config, v: Memory, id: string, who: Who, clock: Clock, random: seq<Option<Seed>>, outcome: Outcome)
    requires Inv(c, v, clock.saved) && 0 < clock.swept <= clock.created <= clock.saved
    ensures var w := Rotated(c, v, id, who, clock, random, outcome).0;
            var made := Made(c, Swept(c, v.sessions - {id}, clock.swept), who, random, clock.created);
            && Sane(c, w, clock.saved)
            && (InStep(c, w, clock.saved) <==>
                  (RotateFailsLate(c, v, id, who, clock, random, outcome) ==>
                     LateAgrees(c, made.value, Previous(v, id), clock.saved)))
  {
    var now, t := clock.saved, Swept(c, v.sessions - {id}, clock.swept);
    var made := Made(c, t, who, random, clock.created);
    RotationTable(c, v, id, clock);
    PutBackKeepsInv(c, v, id, clock);
    if made.None? {
      RotationGivesBack(c, v, id, who, clock, random, outcome);
    } else {
      MadeJoins(c, t, who, random, clock.created, Previous(v, id), now);
      if !RotationDue(v, id, who) { TakenOutKeepsInv(c, v, id, clock); }
      InstallStep(c, v, t, made.value, Previous(v, id), RotationDue(v, id, who), now, outcome);
      RotationInstalls(c, v, id, who, clock, random, outcome);
    }
  }

  lemma RotateKeepsSane(c: Config, v: Memory, id: string, who: Who, clock: Clock, random: seq<Option<Seed>>, outcome: Outcome)
    requires Sane(c, v, clock.saved) && 0 < clock.swept <= clock.created <= clock.saved
    ensures Sane(c, Rotated(c, v, id, who, clock, random, outcome).0, clock.saved)
  {
    var now, t := clock.saved, Swept(c, v.sessions - {id}, clock.swept);
    var made := Made(c, t, who, random, clock.created);
    RotationTable(c, v, id, clock);
    if made.None? {
      RotationGivesBack(c, v, id, who, clock, random, outcome);
      PutBackKeepsSane(c, v, id, clock);
    } else {
      MadeJoins(c, t, who, random, clock.created, Previous(v, id), now);
      InstallKeepsSane(c, v, t, made.value, Previous(v, id), RotationDue(v, id, who), now, outcome);
      RotationInstalls(c, v, id, who, clock, random, outcome);
    }
  }

  lemma DroppedFits(c: Config, s: Table, t: Table, now: int)
    requires TableOk(c, s, now) && t.Keys <= s.Keys && forall id | id in t :: t[id] == s[id]
    ensures TableOk(c, t, now) && |t| <= |s|
  {
    Cardinality(t.Keys, s.Keys);
    assert |t.Keys| == |t| && |s.Keys| == |s|;
  }

  /** Rotating a session still in the table always finds room for its successor. */
  lemma PresentLeavesRoom(c: Config, v: Memory, id: string, now: int)
    requires |v.sessions| <= c.maximum && id in v.sessions
    ensures |Swept(c, v.sessions - {id}, now)| < c.maximum
  {
    var t := Swept(c, v.sessions - {id}, now);
    Cardinality(t.Keys, v.sessions.Keys - {id});
    assert |t.Keys| == |t| && |v.sessions.Keys| == |v.sessions|;
  }

  // ---------- Using and ending a session ----------

  /** A read never puts memory and disk out of step, whatever becomes of its save. */
  lemma GetStep(c: Config, v: Memory, id: string, now: int, outcome: Outcome)
    requires Inv(c, v, now)
    ensures Inv(c, Got(c, v, id, now, outcome).0, now)
  {
    if id !in v.sessions || Expired(c, v.sessions[id], now) {
      DropKeepsInv(c, v, v.sessions - {id}, now);
    } else {
      TouchKeepsInv(c, v, id, now);
      var w := v.(sessions := v.sessions[id := v.sessions[id].(seen := now)]);
      SavedIsOk(c, w.sessions, now);
    }
  }

  lemma GetKeepsSane(c: Config, v: Memory, id: string, now: int, outcome: Outcome)
    requires Sane(c, v, now)
    ensures Sane(c, Got(c, v, id, now, outcome).0, now)
  {
    if id !in v.sessions || Expired(c, v.sessions[id], now) {
      DropKeepsSane(c, v, v.sessions - {id}, now);
    } else {
      var t := v.sessions[id := v.sessions[id].(seen := now)];
      TouchedFits(c, v.sessions, id, now);
      SaveKeepsSane(c, v, t, now, outcome);
    }
  }

  predicate DestroyFailsLate(c: Config, v: Memory, id: string, outcome: Outcome) {
    c.persistent && outcome == Late && id in v.sessions && v.sessions[id].state == Authenticated
  }

  lemma LateLogout(c: Config, t: Table, id: string, now: int)
    requires ValidConfig(c) && now > 0 && TableOk(c, t, now) && id in t && t[id].state == Authenticated
    ensures NothingStale(c, t, Saved(c, t - {id}, now), now)
    ensures NothingMissing(c, t, Saved(c, t - {id}, now), now) <==> Expired(c, t[id], now)
  {
    SavedHolds(c, t - {id}, now);
    LogoutFile(c, Saved(c, t - {id}, now), t, id, now);
  }

  lemma LogoutFile(c: Config, items: seq<Record>, t: Table, id: string, now: int)
    requires id in t && t[id].state == Authenticated && Holds(c, items, t - {id}, now)
    requires forall k | k in t :: t[k].id == k
    ensures NothingStale(c, t, items, now) && (NothingMissing(c, t, items, now) <==> Expired(c, t[id], now))
  {
    forall i | 0 <= i < |items| ensures items[i].id in t && Describes(items[i], t[items[i].id]) {
      assert items[i] == RecordOf((t - {id})[items[i].id]);
    }
    forall k ensures OnDisk(items, k) <==> k in t && k != id && Lives(c, t[k], now) { OnDiskIs(c, items, t - {id}, now, k); }
  }

  /** Exactly when a logout leaves memory and disk in step: unless its save fails late on a live session. */
  lemma DestroyStep(c: Config, v: Memory, id: string, now: int, outcome: Outcome)
    requires Inv(c, v, now)
    ensures var w := Destroyed(c, v, id, now, outcome).0;
            Sane(c, w, now) && (InStep(c, w, now) <==> (DestroyFailsLate(c, v, id, outcome) ==> Expired(c, v.sessions[id], now)))
  {
    var t := v.sessions - {id};
    DroppedFits(c, v.sessions, t, now);
    if DestroyFailsLate(c, v, id, outcome) {
      SaveKeepsSane(c, v, t, now, outcome);
      LateLogout(c, v.sessions, id, now);
    } else if id in v.sessions && v.sessions[id].state == Authenticated {
      SaveBringsIntoStep(c, v, t, now, if outcome.Written? then outcome.ended else now);
    } else {
      DropKeepsInv(c, v, t, now);
    }
  }

  lemma DestroyKeepsSane(c: Config, v: Memory, id: string, now: int, outcome: Outcome)
    requires Sane(c, v, now)
    ensures Sane(c, Destroyed(c, v, id, now, outcome).0, now)
  {
    DropKeepsSane(c, v, v.sessions - {id}, now);
    SaveKeepsSane(c, v, v.sessions - {id}, now, outcome);
  }

  // ---------- Restarting ----------

  ghost predicate FromDisk(items: seq<Record>, s: Session) {
    exists i :: 0 <= i < |items| && s == Restored(items[i])
  }

  /** The live sessions among the records read so far. */
  ghost predicate Loaded(c: Config, items: seq<Record>, now: int, t: Table) {
    && (forall id | id in t :: t[id].id == id && FromDisk(items, t[id]) && !Expired(c, t[id], now))
    && (forall i | 0 <= i < |items| && !Expired(c, Restored(items[i]), now) :: items[i].id in t && t[items[i].id] == Restored(items[i]))
  }

  /** Loading a file a save could have written succeeds, with exactly its unexpired records. */
  lemma {:induction false} LoadAccepts(c: Config, items: seq<Record>, now: int, k: nat, t: Table)
    requires FileOk(c, items, now) && k <= |items| && Loaded(c, items[..k], now, t)
    ensures Load(c, items[k..], now, t).Some? && Loaded(c, items, now, Load(c, items[k..], now, t).value)
    decreases |items| - k
  {
    if k == |items| {
      assert items[..k] == items;
    } else {
      var r := items[k];
      var s := Restored(r);
      assert SessionOk(s, now) && ValidRecord(r, now);
      assert r.id !in t;
      var next := if Expired(c, s, now) then t else t[s.id := s];
      LoadedOneMore(c, items, now, k, t);
      assert items[k..][0] == r && items[k..][1..] == items[k + 1..];
      LoadAccepts(c, items, now, k + 1, next);
    }
  }

  lemma FromDiskGrows(items: seq<Record>, k: nat, s: Session)
    requires k < |items| && (FromDisk(items[..k], s) || s == Restored(items[k]))
    ensures FromDisk(items[..k + 1], s)
  {
    if FromDisk(items[..k], s) {
      var i :| 0 <= i < |items[..k]| && s == Restored(items[..k][i]);
      assert s == Restored(items[..k + 1][i]);
    } else {
      assert s == Restored(items[..k + 1][k]);
    }
  }

  lemma LoadedOneMore(c: Config, items: seq<Record>, now: int, k: nat, t: Table)
    requires FileOk(c, items, now) && k < |items| && Loaded(c, items[..k], now, t) && items[k].id !in t
    ensures var s := Restored(items[k]);
            Loaded(c, items[..k + 1], now, if Expired(c, s, now) then t else t[s.id := s])
  {
    var s := Restored(items[k]);
    var next := if Expired(c, s, now) then t else t[s.id := s];
    assert items[..k + 1] == items[..k] + [items[k]];
    forall id | id in next ensures FromDisk(items[..k + 1], next[id]) {
      FromDiskGrows(items, k, next[id]);
    }
  }

  /** A restart never fails and takes exactly the unexpired records of the file. */
  lemma RestartLoads(c: Config, v: Memory, now: int)
    requires Sane(c, v, now) && c.persistent
    ensures var (w, reply) := Restarted(c, v, now);
            reply == Done && w.file == v.file && Loaded(c, Items(v), now, w.sessions)
  {
    var items := Items(v);
    assert items[..0] == [] && items[0..] == items;
    LoadAccepts(c, items, now, 0, map[]);
  }

  /** What it brings back was live in memory just before: same identity and creation time, last seen no later. */
  lemma RestartRestores(c: Config, v: Memory, now: int, id: string)
    requires Inv(c, v, now) && c.persistent && id in Restarted(c, v, now).0.sessions
    ensures var s := Restarted(c, v, now).0.sessions[id];
            && id in v.sessions && !Expired(c, v.sessions[id], now) && SessionOk(s, now) && s.id == id
            && s == v.sessions[id].(seen := s.seen) && s.seen <= v.sessions[id].seen && s.state == Authenticated
  {
    RestartLoads(c, v, now);
    var s, items := Restarted(c, v, now).0.sessions[id], Items(v);
    var i :| 0 <= i < |items| && s == Restored(items[i]);
    assert items[i].id == id && Describes(items[i], v.sessions[id]);
  }

  function IdsOf(items: seq<Record>): set<string> {
    set i | 0 <= i < |items| :: items[i].id
  }

  lemma {:induction false} IdsFit(items: seq<Record>)
    ensures |IdsOf(items)| <= |items|
  {
    if items != [] {
      IdsFit(items[1..]);
      forall i | 0 <= i < |items| ensures items[i].id in {items[0].id} + IdsOf(items[1..]) {
        if i > 0 { assert items[i] == items[1..][i - 1]; }
      }
      Cardinality(IdsOf(items), {items[0].id} + IdsOf(items[1..]));
    }
  }

  lemma LoadedFits(c: Config, items: seq<Record>, now: int, t: Table)
    requires FileOk(c, items, now) && Loaded(c, items, now, t)
    ensures TableOk(c, t, now)
  {
    forall id | id in t ensures id in IdsOf(items) && SessionOk(t[id], now) {
      var i :| 0 <= i < |items| && t[id] == Restored(items[i]);
      assert items[i].id == id;
    }
    IdsFit(items);
    Cardinality(t.Keys, IdsOf(items));
    assert |t.Keys| == |t|;
  }

  lemma LoadedAgrees(c: Config, items: seq<Record>, now: int, t: Table)
    requires FileOk(c, items, now) && Loaded(c, items, now, t)
    ensures NothingStale(c, t, items, now) && NothingMissing(c, t, items, now)
  {
    forall id | id in t ensures OnDisk(items, id) {
      var i :| 0 <= i < |items| && t[id] == Restored(items[i]);
      assert items[i].id == id;
    }
  }

  /** A restart brings memory and disk into step, whatever state they were in. */
  lemma RestartBringsIntoStep(c: Config, v: Memory, now: int)
    requires Sane(c, v, now)
    ensures Inv(c, Restarted(c, v, now).0, now)
  {
    if c.persistent {
      RestartLoads(c, v, now);
      LoadedFits(c, Items(v), now, Restarted(c, v, now).0.sessions);
      LoadedAgrees(c, Items(v), now, Restarted(c, v, now).0.sessions);
    }
  }

  // ---------- Every call ----------

  /** Table and file stay sound over every call, whatever becomes of its save. */
  lemma StepKeepsSane(c: Config, v: Memory, now: int, call: Call)
    requires Sane(c, v, now) && Timely(call, now)
    ensures Sane(c, After(c, v, call).0, Ends(call))
  {
    InvWaits(c, v, now, Ends(call));
    match call
    case Create(who, clock, random, outcome) => CreateKeepsSane(c, v, who, clock, random, outcome);
    case Rotate(id, who, clock, random, outcome) => RotateKeepsSane(c, v, id, who, clock, random, outcome);
    case Get(id, at, outcome) => GetKeepsSane(c, v, id, at, outcome);
    case Destroy(id, at, outcome) => DestroyKeepsSane(c, v, id, at, outcome);
    case Restart(at) => RestartBringsIntoStep(c, v, at);
  }

  /** A call whose save, if it fails late, makes no difference to who is signed in. */
  predicate StaysInStep(c: Config, v: Memory, call: Call) {
    match call
    case Create(who, clock, random, outcome) =>
      CreateFailsLate(c, v, who, clock, random, outcome) ==>
        !Lives(c, Made(c, Swept(c, v.sessions, clock.swept), who, random, clock.created).value, clock.saved)
    case Rotate(id, who, clock, random, outcome) =>
      RotateFailsLate(c, v, id, who, clock, random, outcome) ==>
        LateAgrees(c, Made(c, Swept(c, v.sessions - {id}, clock.swept), who, random, clock.created).value, Previous(v, id), clock.saved)
    case Destroy(id, at, outcome) => DestroyFailsLate(c, v, id, outcome) ==> Expired(c, v.sessions[id], at)
    case _ => true
  }

  /** Every call keeps memory and disk in step exactly when it meets that condition: always, unless its save fails late. */
  lemma StepKeepsInv(c: Config, v: Memory, now: int, call: Call)
    requires Inv(c, v, now) && Timely(call, now)
    ensures Inv(c, After(c, v, call).0, Ends(call)) <==> StaysInStep(c, v, call)
  {
    InvWaits(c, v, now, Ends(call));
    match call
    case Create(who, clock, random, outcome) => CreateStep(c, v, who, clock, random, outcome);
    case Rotate(id, who, clock, random, outcome) => RotateStep(c, v, id, who, clock, random, outcome);
    case Get(id, at, outcome) => GetStep(c, v, id, at, outcome);
    case Destroy(id, at, outcome) => DestroyStep(c, v, id, at, outcome);
    case Restart(at) => RestartBringsIntoStep(c, v, at);
  }
}
