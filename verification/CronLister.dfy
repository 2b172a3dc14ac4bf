/** Listing a user's crontab: the second, independent reader of the same file. */
module CronLister {
  import opened Wrappers
  import opened Utf8
  import opened CronText
  import opened CronSyntax
  import opened CronParser

  /** A listed job: a task of the file, or a script of a periodic directory the file runs. */
  datatype Listed =
    | Listed(id: TaskId, schedule: string, command: string, line: int, enabled: bool, managed: bool)
    | Script(schedule: string, path: string)

  // ---------- Periodic directories ----------

  const PERIODS: seq<string> := ["hourly", "daily", "weekly", "monthly"]

  predicate NamesPeriod(s: string, period: string) {
    var path := "/etc/cron." + period;
    path <= s && (|s| == |path| || IsSpace(s[|path|]) || s[|path|] == ';' || s[|path|] == '}')
  }

  /** The period of the first periodic directory a command names. */
  function Periodic(s: string): Option<string> {
    if s == "" then None
    else if NamesPeriod(s, PERIODS[0]) then Some(PERIODS[0])
    else if NamesPeriod(s, PERIODS[1]) then Some(PERIODS[1])
    else if NamesPeriod(s, PERIODS[2]) then Some(PERIODS[2])
    else if NamesPeriod(s, PERIODS[3]) then Some(PERIODS[3])
    else Periodic(s[1..])
  }

  /** The scripts of a periodic directory; none when it cannot be read. */
  type Scripts = string -> Option<seq<string>>

  function ScriptJobs(paths: seq<string>, schedule: string): seq<Listed> {
    if paths == [] then [] else [Script(schedule, paths[0])] + ScriptJobs(paths[1..], schedule)
  }

  // ---------- One line ----------

  /** The jobs a line adds, the identifier that waits for its task, and the legacy counts. */
  datatype Out = Out(jobs: seq<Listed>, pending: Option<string>, counts: Counts)

  predicate Incomplete(owner: string, job: Job) {
    owner == "" || job.schedule == "" || job.command == ""
  }

  function MarkerLine(owner: string, m: Marker, at: int, pending: Option<string>, counts: Counts): Option<Out> {
    if pending.Some? then None
    else if !m.suspended then if m.payload != "" then None else Some(Out([], Some(m.id), counts))
    else
      var decoded := DecodeText(m.payload);
      if m.payload == "" || decoded.None? || decoded.value == "" || !OneLine(decoded.value) then None
      else
        var job := ParseJob(decoded.value);
        if job.None? || Incomplete(owner, job.value) then None
        else Some(Out([Listed(Managed(m.id), job.value.schedule, job.value.command, at, false, true)], pending, counts))
  }

  function JobLine(owner: string, scripts: Scripts, line: string, at: int, pending: Option<string>, counts: Counts): Option<Out> {
    var parsed := ParseJob(line);
    if parsed.None? then None
    else
      var job := parsed.value;
      var period := Periodic(job.command);
      if period.Some? then
        if pending.Some? || scripts(period.value).None? then None
        else Some(Out(ScriptJobs(scripts(period.value).value, job.schedule), pending, counts))
      else if Incomplete(owner, job) then None
      else if pending.Some? then
        Some(Out([Listed(Managed(pending.value), job.schedule, job.command, at, true, true)], None, counts))
      else
        var key := KeyOf(job);
        var id := Legacy(owner, key.0, key.1, Count(counts, key) + 1);
        Some(Out([Listed(id, job.schedule, job.command, at, true, false)], None, OneMore(counts, key)))
  }

  function Line(owner: string, scripts: Scripts, raw: string, at: int, pending: Option<string>, counts: Counts): Option<Out> {
    var line := Trim(raw);
    var marker := ParseMarker(line);
    if marker.Some? then MarkerLine(owner, marker.value, at, pending, counts)
    else if STEM <= line then None
    else if !IsPlain(line) then Some(Out([], pending, counts))
    else JobLine(owner, scripts, line, at, pending, counts)
  }

  // ---------- The file ----------

  /** A reader of one line, in the state its predecessors left. */
  type Stepper = (string, int, Option<string>, Counts) -> Option<Out>

  function LineReader(owner: string, scripts: Scripts): Stepper {
    (raw, at, pending, counts) => Line(owner, scripts, raw, at, pending, counts)
  }

  function Following(jobs: seq<Listed>, rest: Option<seq<Listed>>): Option<seq<Listed>> {
    if rest.None? then None else Some(jobs + rest.value)
  }

  /** The jobs of the lines from line number `at` on; none when a line cannot be read or a marker is left without its task. */
  function List(step: Stepper, lines: seq<string>, at: int, pending: Option<string>, counts: Counts): Option<seq<Listed>>
    decreases |lines|
  {
    if lines == [] then if pending.Some? then None else Some([])
    else
      var out := step(lines[0], at, pending, counts);
      if out.None? then None
      else Following(out.value.jobs, List(step, lines[1..], at + 1, out.value.pending, out.value.counts))
  }

  /** A file that is not valid UTF-8 is refused before any line is read. */
  function ListFile(owner: string, scripts: Scripts, content: string): Option<seq<Listed>> {
    if !IsUtf8(content) then None else List(LineReader(owner, scripts), Split(UnixBreaks(content)), 1, None, map[])
  }

  /** The loop over the lines, which appends to one list of jobs. */
  class Lister {
    const owner: string
    const scripts: Scripts
    var jobs: seq<Listed>

    constructor (owner: string, scripts: Scripts)
      ensures this.owner == owner && this.scripts == scripts && jobs == []
    {
      this.owner, this.scripts, jobs := owner, scripts, [];
    }

    /** Adds a file's jobs to those already listed; on failure some may have been added. */
    method ParseCrontab(content: string) returns (ok: bool)
      modifies this
      ensures ok == ListFile(owner, scripts, content).Some?
      ensures ok ==> jobs == old(jobs) + ListFile(owner, scripts, content).value
    {
      if !IsUtf8(content) {
        return false;
      }
      var lines := Split(UnixBreaks(content));
      ok := ParseLines(LineReader(owner, scripts), lines);
    }

    method ParseLines(step: Stepper, lines: seq<string>) returns (ok: bool)
      modifies this
      ensures ok == List(step, lines, 1, None, map[]).Some?
      ensures ok ==> jobs == old(jobs) + List(step, lines, 1, None, map[]).value
    {
      var pending: Option<string> := None;
      var counts: Counts := map[];
      ghost var before := jobs;
      ghost var done: seq<Listed> := [];
      FollowingNothing(List(step, lines, 1, None, map[]));
      assert lines[0..] == lines && jobs == before + done;
      for index := 0 to |lines|
        invariant jobs == before + done
        invariant List(step, lines, 1, None, map[]) == Following(done, List(step, lines[index..], index + 1, pending, counts))
      {
        assert lines[index..][0] == lines[index] && lines[index..][1..] == lines[index + 1..];
        var out := step(lines[index], index + 1, pending, counts);
        if out.None? {
          return false;
        }
        FollowingTwice(done, out.value.jobs, List(step, lines[index + 1..], index + 2, out.value.pending, out.value.counts));
        Associative(before, done, out.value.jobs);
        jobs := jobs + out.value.jobs;
        done := done + out.value.jobs;
        pending, counts := out.value.pending, out.value.counts;
      }
      assert lines[|lines|..] == [];
      ok := pending.None?;
      assert done + [] == done;
    }
  }

  lemma FollowingNothing(rest: Option<seq<Listed>>)
    ensures Following([], rest) == rest
  {
    assert rest.Some? ==> [] + rest.value == rest.value;
  }

  lemma FollowingTwice(a: seq<Listed>, b: seq<Listed>, rest: Option<seq<Listed>>)
    ensures Following(a, Following(b, rest)) == Following(a + b, rest)
  {
    if rest.Some? { Associative(a, b, rest.value); }
  }
}
