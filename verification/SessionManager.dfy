/** The session manager itself: its table is updated in place by every call. */
module SessionManager {
  import opened Wrappers
  import opened Ordering
  import opened Base64
  import opened Sessions

  class Manager {
    const config: Config
    var sessions: Table
    var file: Option<seq<Record>>
    var last: int

    ghost function State(): Memory
      reads this
    {
      Memory(sessions, file, last)
    }

    ghost predicate Valid()
      reads this
    {
      ValidConfig(config)
    }

    constructor (config: Config)
      requires ValidConfig(config)
      ensures Valid() && State() == Memory(map[], None, 0) && this.config == config
    {
      this.config := config;
      sessions, file, last := map[], None, 0;
    }

    method RemoveExpired(now: int)
      modifies this`sessions
      ensures sessions == Swept(config, old(sessions), now)
    {
      var rest := sessions.Keys;
      while rest != {}
        invariant rest <= sessions.Keys <= old(sessions).Keys
        invariant forall id | id in old(sessions) :: id in sessions <==> id in rest || !Expired(config, old(sessions)[id], now)
        invariant forall id | id in sessions :: sessions[id] == old(sessions)[id]
        decreases rest
      {
        var id :| id in rest;
        rest := rest - {id};
        if Expired(config, sessions[id], now) {
          sessions := sessions - {id};
        }
      }
    }

    method CreateLocked(who: Who, random: seq<Option<Seed>>, now: int) returns (made: Option<Session>)
      modifies this`sessions
      ensures made == NewSession(old(sessions), who, random, now)
      ensures sessions == if made.Some? then Put(old(sessions), made.value) else old(sessions)
    {
      made := None;
      if (who.state == Anonymous && (who.user != 0 || who.version != 0))
         || (who.state != Anonymous && (who.user < 1 || who.version < 1)) {
        return;
      }
      var attempts, from := 0, 0;
      while attempts < 4
        invariant 0 <= attempts <= 4 && 0 <= from <= |random|
        invariant Draw(sessions, random, 4) == Draw(sessions, random[from..], 4 - attempts)
        invariant sessions == old(sessions) && made == None
      {
        if from == |random| || random[from] == None {
          return;
        }
        var id := Encode(random[from].value);
        assert random[from..][1..] == random[from + 1..];
        from := from + 1;
        if id in sessions {
          attempts := attempts + 1;
          continue;
        }
        if from == |random| || random[from] == None {
          return;
        }
        var session := Session(id, Encode(random[from].value), who.state, who.user, who.version, now, now);
        sessions := sessions[id := session];
        return Some(session);
      }
    }

    /** Collects the live authenticated sessions in the order of their identifiers and replaces the file. */
    method Persist(now: int, outcome: Outcome) returns (ok: bool)
      requires Valid()
      modifies this`file, this`last
      ensures (State(), ok) == Save(config, old(State()), now, outcome)
    {
      if !config.persistent {
        return true;
      }
      var ids: seq<string> := [];
      var rest := sessions.Keys;
      while rest != {}
        invariant rest <= sessions.Keys && Sorted(ids)
        invariant Elements(ids) == SavedIds(config, sessions, now) - rest
        decreases rest
      {
        var id :| id in rest;
        rest := rest - {id};
        if sessions[id].state == Authenticated && !Expired(config, sessions[id], now) {
          ids := Insert(id, ids);
        }
      }
      SortedIsUnique(ids, Listing(SavedIds(config, sessions, now)));
      if outcome == Unwritten {
        return false;
      }
      assert forall i | 0 <= i < |ids| :: ids[i] in Elements(ids);
      var t := sessions;
      var items := seq(|ids|, i requires 0 <= i < |ids| => RecordOf(t[ids[i]]));
      assert items == Saved(config, sessions, now);
      file := Some(items);
      if outcome == Late {
        return false;
      }
      last := outcome.ended;
      return true;
    }

    method Create(who: Who, clock: Clock, random: seq<Option<Seed>>, outcome: Outcome) returns (reply: Reply)
      requires Valid()
      modifies this
      ensures (State(), reply) == Created(config, old(State()), who, clock, random, outcome)
    {
      RemoveExpired(clock.swept);
      if |sessions| >= config.maximum {
        return AtCapacity;
      }
      ghost var t := sessions;
      DrawMisses(sessions, random, 4);
      var made := CreateLocked(who, random, clock.created);
      if made == None {
        return Failed;
      }
      reply := Commit(made.value, "", None, who.state == Authenticated, clock.saved, outcome, t);
    }

    /** Saves when that is due; a failed save takes the new session out and puts the old one back. */
    method Commit(made: Session, id: string, previous: Option<Session>, due: bool, now: int, outcome: Outcome, ghost t: Table)
      returns (reply: Reply)
      requires Valid() && made.id !in t && sessions == Put(t, made)
      modifies this
      ensures var back := if previous.Some? then t[id := previous.value] else t;
              (State(), reply) == Install(config, old(State()), t, back, made, due, now, outcome)
    {
      if due {
        var ok := Persist(now, outcome);
        if !ok {
          sessions := sessions - {made.id};
          assert sessions == t;
          if previous.Some? {
            sessions := sessions[id := previous.value];
          }
          return Failed;
        }
      }
      return Opened(made);
    }

    method Rotate(id: string, who: Who, clock: Clock, random: seq<Option<Seed>>, outcome: Outcome) returns (reply: Reply)
      requires Valid()
      modifies this
      ensures (State(), reply) == Rotated(config, old(State()), id, who, clock, random, outcome)
    {
      var previous := if id in sessions then Some(sessions[id]) else None;
      sessions := sessions - {id};
      RemoveExpired(clock.swept);
      if |sessions| >= config.maximum {
        return AtCapacity;
      }
      ghost var t := sessions;
      DrawMisses(sessions, random, 4);
      var made := CreateLocked(who, random, clock.created);
      if made == None {
        if previous.Some? {
          sessions := sessions[id := previous.value];
        }
        return Failed;
      }
      var due := (previous.Some? && previous.value.state == Authenticated) || who.state == Authenticated;
      reply := Commit(made.value, id, previous, due, clock.saved, outcome, t);
    }

    lemma DrawMisses(t: Table, random: seq<Option<Seed>>, attempts: nat)
      ensures Draw(t, random, attempts).Some? ==> Draw(t, random, attempts).value.0 !in t
    {
    }

    /** Writes the file at most once a minute, and ignores a failure to do so. */
    method Get(id: string, now: int, outcome: Outcome) returns (reply: Reply)
      requires Valid()
      modifies this
      ensures (State(), reply) == Got(config, old(State()), id, now, outcome)
    {
      if id !in sessions || Expired(config, sessions[id], now) {
        sessions := sessions - {id};
        return NotFound;
      }
      var session := sessions[id].(seen := now);
      sessions := sessions[id := session];
      if session.state == Authenticated && config.persistent && now - last >= MINUTE {
        var _ := Persist(now, outcome);
      }
      return Opened(session);
    }

    method Destroy(id: string, now: int, outcome: Outcome) returns (reply: Reply)
      requires Valid()
      modifies this
      ensures (State(), reply) == Destroyed(config, old(State()), id, now, outcome)
    {
      var previous := if id in sessions then Some(sessions[id]) else None;
      sessions := sessions - {id};
      if previous.Some? && previous.value.state == Authenticated {
        var ok := Persist(now, outcome);
        if !ok {
          sessions := sessions[id := previous.value];
          assert sessions == old(sessions);
          return Failed;
        }
      }
      return Done;
    }

    /** A new manager on the file of an old one. */
    method Restart(now: int) returns (reply: Reply)
      requires Valid()
      modifies this
      ensures (State(), reply) == Restarted(config, old(State()), now)
    {
      if !config.persistent || file == None {
        sessions, last := map[], 0;
        return Done;
      }
      var items := file.value;
      if |items| > config.maximum {
        return Failed;
      }
      var t: Table := map[];
      var i := 0;
      while i < |items|
        invariant 0 <= i <= |items|
        invariant Load(config, items[i..], now, t) == Load(config, items, now, map[])
      {
        var r := items[i];
        assert items[i..][0] == r && items[i..][1..] == items[i + 1..];
        if !ValidRecord(r, now) || r.id in t {
          return Failed;
        }
        if !Expired(config, Restored(r), now) {
          t := t[r.id := Restored(r)];
        }
        i := i + 1;
      }
      sessions, last := t, now;
      return Done;
    }
  }
}
