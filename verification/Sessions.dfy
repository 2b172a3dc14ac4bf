/** The session table, its expiry, and its copy on disk, as functions of the state before a call.

    Times count nanoseconds from the zero time. A call takes its clock readings and the
    outcome of its save as arguments.
 */
module Sessions {
  import opened Wrappers
  import opened Ordering
  import opened Base64

  datatype State = Anonymous | Password | TwoFactor | TwoFactorSetup | Authenticated

  datatype Session = Session(id: string, csrf: string, state: State, user: int, version: int, created: int, seen: int)

  /** `persistent` is false for a manager without a file. */
  datatype Config = Config(idle: int, absolute: int, pending: int, maximum: int, persistent: bool)

  predicate ValidConfig(c: Config) {
    c.idle > 0 && c.absolute > 0 && c.pending > 0 && c.maximum >= 1
  }

  const MINUTE: int := 60_000_000_000

  type Table = map<string, Session>

  datatype Record = Record(id: string, csrf: string, user: int, version: int, created: int, seen: int)

  function RecordOf(s: Session): Record {
    Record(s.id, s.csrf, s.user, s.version, s.created, s.seen)
  }

  function Restored(r: Record): Session {
    Session(r.id, r.csrf, Authenticated, r.user, r.version, r.created, r.seen)
  }

  /** Memory, file, and the time of the last save. */
  datatype Memory = Memory(sessions: Table, file: Option<seq<Record>>, last: int)

  predicate Expired(c: Config, s: Session, now: int) {
    || now - s.created > (if s.state == Authenticated then c.absolute else c.pending)
    || now - s.seen > c.idle
  }

  function Swept(c: Config, t: Table, now: int): Table {
    map id | id in t && !Expired(c, t[id], now) :: t[id]
  }

  predicate ValidToken(text: string) {
    var decoded := Decode(text, true);
    decoded.Some? && |decoded.value| == 32
  }

  predicate ValidIdentity(state: State, user: int, version: int) {
    if state == Anonymous then user == 0 && version == 0 else user >= 1 && version >= 1
  }

  predicate ValidRecord(r: Record, now: int) {
    && ValidToken(r.id) && ValidToken(r.csrf) && r.user > 0 && r.version > 0
    && r.created != 0 && r.seen != 0 && r.seen >= r.created
    && r.created <= now + MINUTE && r.seen <= now + MINUTE
  }

  // ---------- Creating ----------

  /** Thirty-two random bytes; `None` when the source fails. */
  type Seed = b: seq<byte> | |b| == 32 witness seq(32, _ => 0)

  /** An identifier not in use and an anti-forgery token, within the allowed attempts. */
  function Draw(t: Table, random: seq<Option<Seed>>, attempts: nat): Option<(string, string)> {
    if attempts == 0 || random == [] || random[0].None? then None
    else
      var id := Encode(random[0].value);
      if id in t then Draw(t, random[1..], attempts - 1)
      else if |random| < 2 || random[1].None? then None
      else Some((id, Encode(random[1].value)))
  }

  function NewSession(t: Table, who: Who, random: seq<Option<Seed>>, now: int): Option<Session> {
    if !ValidIdentity(who.state, who.user, who.version) then None
    else
      var drawn := Draw(t, random, 4);
      if drawn.None? then None
      else Some(Session(drawn.value.0, drawn.value.1, who.state, who.user, who.version, now, now))
  }

  datatype Who = Who(state: State, user: int, version: int)

  // ---------- Saving and loading ----------

  ghost function SavedIds(c: Config, t: Table, now: int): set<string> {
    set id | id in t && t[id].state == Authenticated && !Expired(c, t[id], now)
  }

  /** What a save writes: the live authenticated sessions, in the order of their identifiers. */
  ghost function Saved(c: Config, t: Table, now: int): (items: seq<Record>)
    ensures |items| == |Listing(SavedIds(c, t, now))|
    ensures forall i | 0 <= i < |items| :: Listing(SavedIds(c, t, now))[i] in t
                       && items[i] == RecordOf(t[Listing(SavedIds(c, t, now))[i]])
  {
    var ids := Listing(SavedIds(c, t, now));
    assert forall i | 0 <= i < |ids| :: ids[i] in Elements(ids);
    seq(|ids|, i requires 0 <= i < |ids| => RecordOf(t[ids[i]]))
  }

  /** A save succeeds, fails before it has replaced the file, or fails after: then the file is the new
      one, but the caller is told that it failed. Success is remembered by a reading of the clock at its end. */
  datatype Outcome = Written(ended: int) | Unwritten | Late

  ghost function Save(c: Config, v: Memory, now: int, outcome: Outcome): (Memory, bool) {
    if !c.persistent then (v, true)
    else
      match outcome
      case Written(ended) => (v.(file := Some(Saved(c, v.sessions, now)), last := ended), true)
      case Unwritten => (v, false)
      case Late => (v.(file := Some(Saved(c, v.sessions, now))), false)
  }

  /** Reading the records back, one by one; any bad or repeated one refuses the whole file. */
  function Load(c: Config, items: seq<Record>, now: int, t: Table): Option<Table>
    decreases |items|
  {
    if items == [] then Some(t)
    else if !ValidRecord(items[0], now) || items[0].id in t then None
    else
      var s := Restored(items[0]);
      Load(c, items[1..], now, if Expired(c, s, now) then t else t[s.id := s])
  }

  // ---------- Calls ----------

  datatype Clock = Clock(swept: int, created: int, saved: int)

  datatype Reply = Opened(session: Session) | AtCapacity | Failed | Done | NotFound

  datatype Call =
    | Create(who: Who, clock: Clock, random: seq<Option<Seed>>, outcome: Outcome)
    | Rotate(id: string, who: Who, clock: Clock, random: seq<Option<Seed>>, outcome: Outcome)
    | Get(id: string, now: int, outcome: Outcome)
    | Destroy(id: string, now: int, outcome: Outcome)
    | Restart(now: int)

  function Put(t: Table, s: Session): Table {
    t[s.id := s]
  }

  /** A new session joins table t; when a due save fails, the table goes back. */
  ghost function Install(c: Config, v: Memory, t: Table, back: Table, s: Session, due: bool, now: int, outcome: Outcome): (Memory, Reply) {
    var w := v.(sessions := Put(t, s));
    if !due then (w, Opened(s))
    else
      var (saved, ok) := Save(c, w, now, outcome);
      if ok then (saved, Opened(s)) else (saved.(sessions := back), Failed)
  }

  ghost function Created(c: Config, v: Memory, who: Who, clock: Clock, random: seq<Option<Seed>>, outcome: Outcome): (Memory, Reply) {
    var t := Swept(c, v.sessions, clock.swept);
    var made := NewSession(t, who, random, clock.created);
    if |t| >= c.maximum then (v.(sessions := t), AtCapacity)
    else if made.None? then (v.(sessions := t), Failed)
    else Install(c, v, t, t, made.value, who.state == Authenticated, clock.saved, outcome)
  }

  /** The table once a failed rotation has put the old session back. */
  function PutBack(c: Config, t: Table, id: string, now: int): Table {
    var swept := Swept(c, t - {id}, now);
    if id in t then swept[id := t[id]] else swept
  }

  ghost function Rotated(c: Config, v: Memory, id: string, who: Who, clock: Clock, random: seq<Option<Seed>>, outcome: Outcome): (Memory, Reply) {
    var t := Swept(c, v.sessions - {id}, clock.swept);
    var back := PutBack(c, v.sessions, id, clock.swept);
    var made := NewSession(t, who, random, clock.created);
    if |t| >= c.maximum then (v.(sessions := t), AtCapacity)
    else if made.None? then (v.(sessions := back), Failed)
    else
      var due := who.state == Authenticated || (id in v.sessions && v.sessions[id].state == Authenticated);
      Install(c, v, t, back, made.value, due, clock.saved, outcome)
  }

  ghost function Got(c: Config, v: Memory, id: string, now: int, outcome: Outcome): (Memory, Reply) {
    if id !in v.sessions || Expired(c, v.sessions[id], now) then (v.(sessions := v.sessions - {id}), NotFound)
    else
      var s := v.sessions[id].(seen := now);
      var w := v.(sessions := v.sessions[id := s]);
      if s.state == Authenticated && c.persistent && now - v.last >= MINUTE then (Save(c, w, now, outcome).0, Opened(s))
      else (w, Opened(s))
  }

  ghost function Destroyed(c: Config, v: Memory, id: string, now: int, outcome: Outcome): (Memory, Reply) {
    var w := v.(sessions := v.sessions - {id});
    if id in v.sessions && v.sessions[id].state == Authenticated then
      var (saved, ok) := Save(c, w, now, outcome);
      if ok then (saved, Done) else (saved.(sessions := v.sessions), Failed)
    else (w, Done)
  }

  /** A new process: it fails to start on a bad file, and then nothing changes. */
  ghost function Restarted(c: Config, v: Memory, now: int): (Memory, Reply) {
    if !c.persistent || v.file.None? then (v.(sessions := map[], last := 0), Done)
    else if |v.file.value| > c.maximum then (v, Failed)
    else
      var t := Load(c, v.file.value, now, map[]);
      if t.None? then (v, Failed) else (v.(sessions := t.value, last := now), Done)
  }

  ghost function After(c: Config, v: Memory, call: Call): (Memory, Reply) {
    match call
    case Create(who, clock, random, outcome) => Created(c, v, who, clock, random, outcome)
    case Rotate(id, who, clock, random, outcome) => Rotated(c, v, id, who, clock, random, outcome)
    case Get(id, now, outcome) => Got(c, v, id, now, outcome)
    case Destroy(id, now, outcome) => Destroyed(c, v, id, now, outcome)
    case Restart(now) => Restarted(c, v, now)
  }

  /** The clock never goes back: a call starts no earlier than `before`. */
  predicate Timely(call: Call, before: int) {
    match call
    case Create(_, clock, _, _) => before <= clock.swept <= clock.created <= clock.saved
    case Rotate(_, _, clock, _, _) => before <= clock.swept <= clock.created <= clock.saved
    case Get(_, now, _) => before <= now
    case Destroy(_, now, _) => before <= now
    case Restart(now) => before <= now
  }

  function Ends(call: Call): int {
    match call
    case Create(_, clock, _, _) => clock.saved
    case Rotate(_, _, clock, _, _) => clock.saved
    case Get(_, now, _) => now
    case Destroy(_, now, _) => now
    case Restart(now) => now
  }
}
