/** Capturing the output of a command: two streams, read as they come, into one budget of bytes. */
module Capture {

  newtype byte = b: int | 0 <= b < 256

  type Bytes = seq<byte>

  datatype Stream = Stdout | Stderr

  /** A chunk read from a stream; an empty one is its end. */
  datatype Event = Event(stream: Stream, chunk: Bytes)

  const CERTBOT_LIMIT: nat := 128 * 1024
  const CRON_LIMIT: nat := 64 * 1024

  // ---------- What was read, byte by byte ----------

  type Tagged = seq<(Stream, byte)>

  function Tag(stream: Stream, chunk: Bytes): Tagged {
    seq(|chunk|, i requires 0 <= i < |chunk| => (stream, chunk[i]))
  }

  /** All bytes read, in the order they were read. */
  function Interleaved(events: seq<Event>): Tagged {
    if events == [] then [] else Tag(events[0].stream, events[0].chunk) + Interleaved(events[1..])
  }

  /** What one stream sent. */
  function Sent(stream: Stream, events: seq<Event>): Bytes {
    if events == [] then []
    else (if events[0].stream == stream then events[0].chunk else []) + Sent(stream, events[1..])
  }

  /** The bytes of one stream. */
  function Of(stream: Stream, bytes: Tagged): Bytes {
    if bytes == [] then [] else (if bytes[0].0 == stream then [bytes[0].1] else []) + Of(stream, bytes[1..])
  }

  /** The budget goes to the bytes read first, whichever stream they come from. */
  function Kept(limit: nat, bytes: Tagged): Tagged {
    if |bytes| <= limit then bytes else bytes[..limit]
  }

  lemma {:induction false} OfAppend(stream: Stream, a: Tagged, b: Tagged)
    ensures Of(stream, a + b) == Of(stream, a) + Of(stream, b)
  {
    if a == [] {
      assert a + b == b;
    } else {
      assert (a + b)[1..] == a[1..] + b;
      OfAppend(stream, a[1..], b);
      var first: Bytes := if a[0].0 == stream then [a[0].1] else [];
      assert first + (Of(stream, a[1..]) + Of(stream, b)) == first + Of(stream, a[1..]) + Of(stream, b);
    }
  }

  lemma {:induction false} OfTag(stream: Stream, from: Stream, chunk: Bytes)
    ensures Of(stream, Tag(from, chunk)) == if stream == from then chunk else []
  {
    if chunk != [] {
      assert Tag(from, chunk)[1..] == Tag(from, chunk[1..]);
      OfTag(stream, from, chunk[1..]);
    }
  }

  lemma {:induction false} InterleavedOneMore(events: seq<Event>, e: Event)
    ensures Interleaved(events + [e]) == Interleaved(events) + Tag(e.stream, e.chunk)
  {
    if events == [] {
      assert [e][1..] == [];
      assert [] + [e] == [e];
    } else {
      assert (events + [e])[1..] == events[1..] + [e];
      InterleavedOneMore(events[1..], e);
    }
  }

  // ---------- What the capture means ----------

  lemma {:induction false} StreamsShareTheBytes(bytes: Tagged)
    ensures |Of(Stdout, bytes)| + |Of(Stderr, bytes)| == |bytes|
  {
    if bytes != [] {
      StreamsShareTheBytes(bytes[1..]);
    }
  }

  lemma {:induction false} SentIsProjection(stream: Stream, events: seq<Event>)
    ensures Sent(stream, events) == Of(stream, Interleaved(events))
  {
    if events != [] {
      SentIsProjection(stream, events[1..]);
      OfAppend(stream, Tag(events[0].stream, events[0].chunk), Interleaved(events[1..]));
      OfTag(stream, events[0].stream, events[0].chunk);
    }
  }

  /** Each captured buffer is a prefix of what its stream sent, and together they hold as many bytes as
      were read, up to the limit. */
  lemma CapturedPrefixes(limit: nat, events: seq<Event>)
    ensures Of(Stdout, Kept(limit, Interleaved(events))) <= Sent(Stdout, events)
    ensures Of(Stderr, Kept(limit, Interleaved(events))) <= Sent(Stderr, events)
    ensures var total := |Sent(Stdout, events)| + |Sent(Stderr, events)|;
            |Of(Stdout, Kept(limit, Interleaved(events)))| + |Of(Stderr, Kept(limit, Interleaved(events)))|
              == if total <= limit then total else limit
  {
    var all := Interleaved(events);
    var kept := Kept(limit, all);
    StreamsShareTheBytes(kept);
    StreamsShareTheBytes(all);
    assert all == kept + all[|kept|..];
    SentIsProjection(Stdout, events);
    SentIsProjection(Stderr, events);
    OfAppend(Stdout, kept, all[|kept|..]);
    OfAppend(Stderr, kept, all[|kept|..]);
  }

  /** What one chunk more adds to the captured bytes. */
  lemma KeptOneMore(limit: nat, bytes: Tagged, stream: Stream, chunk: Bytes, taken: nat)
    requires var left := limit - |Kept(limit, bytes)|; taken == if |chunk| <= left then |chunk| else left
    ensures Kept(limit, bytes + Tag(stream, chunk)) == Kept(limit, bytes) + Tag(stream, chunk[..taken])
    ensures |bytes + Tag(stream, chunk)| > limit <==> |bytes| > limit || taken < |chunk|
  {
  }

  // ---------- The two readers ----------

  function Flat(rounds: seq<seq<Event>>): seq<Event> {
    if rounds == [] then [] else rounds[0] + Flat(rounds[1..])
  }

  lemma {:induction false} FlatOneMore(rounds: seq<seq<Event>>, round: seq<Event>)
    ensures Flat(rounds + [round]) == Flat(rounds) + round
  {
    if rounds == [] {
      assert [round][1..] == [] && [] + [round] == [round] && [] + round == round;
      assert round + [] == round;
    } else {
      assert (rounds + [round])[1..] == rounds[1..] + [round];
      FlatOneMore(rounds[1..], round);
      assert rounds[0] + (Flat(rounds[1..]) + round) == rounds[0] + Flat(rounds[1..]) + round;
    }
  }

  /** Keeps what fits of a chunk: how much was kept, and whether something was dropped. */
  method AppendOutput(destination: Bytes, chunk: Bytes, remaining: int) returns (extended: Bytes, retained: nat, dropped: bool)
    ensures retained == if remaining <= 0 then 0 else if |chunk| <= remaining then |chunk| else remaining
    ensures extended == destination + chunk[..retained] && (dropped <==> retained < |chunk|)
  {
    if remaining <= 0 {
      assert destination + chunk[..0] == destination;
      return destination, 0, |chunk| > 0;
    }
    var part := if remaining < |chunk| then chunk[..remaining] else chunk;
    return destination + part, |part|, |part| < |chunk|;
  }

  lemma OneRoundMore(rounds: seq<seq<Event>>, n: nat)
    requires n < |rounds|
    ensures Flat(rounds[..n + 1]) == Flat(rounds[..n]) + rounds[n]
  {
    assert rounds[..n + 1] == rounds[..n] + [rounds[n]];
    FlatOneMore(rounds[..n], rounds[n]);
  }

  class Reader {
    const limit: nat
    var stdout: Bytes
    var stderr: Bytes
    var retained: nat
    var truncated: bool
    var open: set<Stream>
    /** What has been read so far. */
    ghost var trace: seq<Event>

    /** The buffers hold the first bytes read, and the flag tells whether any were dropped. */
    ghost predicate Valid()
      reads this
    {
      var all := Interleaved(trace);
      && stdout == Of(Stdout, Kept(limit, all)) && stderr == Of(Stderr, Kept(limit, all))
      && retained == |Kept(limit, all)| && (truncated <==> |all| > limit)
    }

    constructor (limit: nat)
      ensures this.limit == limit && Valid() && trace == [] && open == {Stdout, Stderr}
    {
      this.limit, stdout, stderr, retained, truncated := limit, [], [], 0, false;
      open, trace := {Stdout, Stderr}, [];
    }

    /** Common to both readers: the accounting of what was kept of a chunk. */
    ghost method Account(e: Event, before: Tagged, taken: nat)
      requires before == Interleaved(trace)
      requires var left := limit - |Kept(limit, before)|; taken == if |e.chunk| <= left then |e.chunk| else left
      requires retained == |Kept(limit, before)| + taken && (truncated <==> |before| > limit || taken < |e.chunk|)
      requires stdout == Of(Stdout, Kept(limit, before)) + (if e.stream.Stdout? then e.chunk[..taken] else [])
      requires stderr == Of(Stderr, Kept(limit, before)) + (if e.stream.Stderr? then e.chunk[..taken] else [])
      modifies this`trace
      ensures trace == old(trace) + [e] && Valid()
    {
      InterleavedOneMore(trace, e);
      KeptOneMore(limit, before, e.stream, e.chunk, taken);
      OfAppend(Stdout, Kept(limit, before), Tag(e.stream, e.chunk[..taken]));
      OfAppend(Stderr, Kept(limit, before), Tag(e.stream, e.chunk[..taken]));
      OfTag(Stdout, e.stream, e.chunk[..taken]);
      OfTag(Stderr, e.stream, e.chunk[..taken]);
      trace := trace + [e];
    }

    /** The certificate runner's handling of one chunk. */
    method Retain(e: Event)
      requires Valid()
      modifies this
      ensures Valid() && trace == old(trace) + [e] && open == old(open)
    {
      ghost var before := Interleaved(trace);
      var kept, dropped;
      if e.stream.Stdout? {
        stdout, kept, dropped := AppendOutput(stdout, e.chunk, limit - retained);
      } else {
        stderr, kept, dropped := AppendOutput(stderr, e.chunk, limit - retained);
      }
      retained := retained + kept;
      truncated := truncated || dropped;
      Account(e, before, kept);
    }

    /** The cron runner's handling of one chunk. */
    method Store(e: Event)
      requires Valid()
      modifies this
      ensures Valid() && trace == old(trace) + [e] && open == old(open)
    {
      ghost var before := Interleaved(trace);
      var available := limit - retained;
      ghost var taken := if |e.chunk| <= available then |e.chunk| else available;
      if available > 0 {
        var part := if available < |e.chunk| then e.chunk[..available] else e.chunk;
        if e.stream.Stdout? {
          stdout := stdout + part;
        } else {
          stderr := stderr + part;
        }
        retained := retained + |part|;
      }
      if |e.chunk| > available {
        truncated := true;
      }
      Account(e, before, taken);
    }

    /** One round of ready streams; a stream that has ended is closed. */
    method RetainRound(round: seq<Event>)
      requires Valid()
      modifies this
      ensures Valid() && trace == old(trace) + round
    {
      assert round[..0] == [] && trace + [] == trace;
      for i := 0 to |round|
        invariant Valid() && trace == old(trace) + round[..i]
      {
        Retain(round[i]);
        assert old(trace) + round[..i] + [round[i]] == old(trace) + round[..i + 1];
        if |round[i].chunk| == 0 {
          open := open - {round[i].stream};
        }
      }
      assert round[..|round|] == round;
    }

    /** The same in the cron runner. */
    method StoreRound(round: seq<Event>)
      requires Valid()
      modifies this
      ensures Valid() && trace == old(trace) + round
    {
      assert round[..0] == [] && trace + [] == trace;
      for i := 0 to |round|
        invariant Valid() && trace == old(trace) + round[..i]
      {
        Store(round[i]);
        assert old(trace) + round[..i] + [round[i]] == old(trace) + round[..i + 1];
        if |round[i].chunk| == 0 {
          open := open - {round[i].stream};
        }
      }
      assert round[..|round|] == round;
    }

    /** What is still waiting in the open streams once time is up. */
    method Drain(round: seq<Event>)
      requires Valid()
      modifies this
      ensures Valid() && trace == old(trace) + round && open == old(open)
    {
      assert round[..0] == [] && trace + [] == trace;
      for i := 0 to |round|
        invariant Valid() && trace == old(trace) + round[..i] && open == old(open)
      {
        Retain(round[i]);
        assert old(trace) + round[..i] + [round[i]] == old(trace) + round[..i + 1];
      }
      assert round[..|round|] == round;
    }

    /** The certificate runner's loop: rounds of ready streams until both have ended or time is up, and then,
        when it timed out, whatever is still waiting. */
    method ReadCertbot(rounds: seq<seq<Event>>, timedOut: bool, waiting: seq<Event>) returns (ghost n: nat)
      requires Valid() && trace == []
      modifies this
      ensures Valid() && n <= |rounds| && (n == |rounds| || open == {}) && trace == Flat(rounds[..n]) + (if timedOut then waiting else [])
    {
      var next := 0;
      assert rounds[..0] == [];
      while next < |rounds| && open != {}
        invariant next <= |rounds| && Valid() && trace == Flat(rounds[..next])
        decreases |rounds| - next
      {
        RetainRound(rounds[next]);
        OneRoundMore(rounds, next);
        next := next + 1;
      }
      n := next;
      if timedOut {
        Drain(waiting);
      } else {
        assert trace + [] == trace;
      }
    }

    /** The cron runner's loop, which leaves what is waiting when time is up. */
    method ReadCron(rounds: seq<seq<Event>>) returns (ghost n: nat)
      requires Valid() && trace == []
      modifies this
      ensures Valid() && n <= |rounds| && (n == |rounds| || open == {}) && trace == Flat(rounds[..n])
    {
      var next := 0;
      assert rounds[..0] == [];
      while next < |rounds| && open != {}
        invariant next <= |rounds| && Valid() && trace == Flat(rounds[..next])
        decreases |rounds| - next
      {
        StoreRound(rounds[next]);
        OneRoundMore(rounds, next);
        next := next + 1;
      }
      n := next;
    }
  }

  /** Both runners end with the first bytes read, up to their limit, each in its own stream's buffer. */
  method CaptureCertbot(rounds: seq<seq<Event>>, timedOut: bool, waiting: seq<Event>)
    returns (stdout: Bytes, stderr: Bytes, truncated: bool, ghost n: nat, ghost events: seq<Event>)
    ensures n <= |rounds| && events == Flat(rounds[..n]) + (if timedOut then waiting else [])
    ensures stdout == Of(Stdout, Kept(CERTBOT_LIMIT, Interleaved(events))) <= Sent(Stdout, events)
    ensures stderr == Of(Stderr, Kept(CERTBOT_LIMIT, Interleaved(events))) <= Sent(Stderr, events)
    ensures |stdout| + |stderr| <= CERTBOT_LIMIT
    ensures truncated <==> |Sent(Stdout, events)| + |Sent(Stderr, events)| > CERTBOT_LIMIT
    ensures !truncated ==> stdout == Sent(Stdout, events) && stderr == Sent(Stderr, events)
    ensures truncated ==> |stdout| + |stderr| == CERTBOT_LIMIT
  {
    var reader := new Reader(CERTBOT_LIMIT);
    n := reader.ReadCertbot(rounds, timedOut, waiting);
    events := reader.trace;
    stdout, stderr, truncated := reader.stdout, reader.stderr, reader.truncated;
    CaptureMeans(CERTBOT_LIMIT, events);
  }

  method CaptureCron(rounds: seq<seq<Event>>) returns (stdout: Bytes, stderr: Bytes, truncated: bool, ghost n: nat, ghost events: seq<Event>)
    ensures n <= |rounds| && events == Flat(rounds[..n])
    ensures stdout == Of(Stdout, Kept(CRON_LIMIT, Interleaved(events))) <= Sent(Stdout, events)
    ensures stderr == Of(Stderr, Kept(CRON_LIMIT, Interleaved(events))) <= Sent(Stderr, events)
    ensures |stdout| + |stderr| <= CRON_LIMIT
    ensures truncated <==> |Sent(Stdout, events)| + |Sent(Stderr, events)| > CRON_LIMIT
    ensures !truncated ==> stdout == Sent(Stdout, events) && stderr == Sent(Stderr, events)
    ensures truncated ==> |stdout| + |stderr| == CRON_LIMIT
  {
    var reader := new Reader(CRON_LIMIT);
    n := reader.ReadCron(rounds);
    events := reader.trace;
    stdout, stderr, truncated := reader.stdout, reader.stderr, reader.truncated;
    CaptureMeans(CRON_LIMIT, events);
  }

  lemma CaptureMeans(limit: nat, events: seq<Event>)
    ensures var kept := Kept(limit, Interleaved(events)); var total := |Sent(Stdout, events)| + |Sent(Stderr, events)|;
            && Of(Stdout, kept) <= Sent(Stdout, events) && Of(Stderr, kept) <= Sent(Stderr, events)
            && |Of(Stdout, kept)| + |Of(Stderr, kept)| == (if total <= limit then total else limit)
            && (|Interleaved(events)| > limit <==> total > limit)
            && (total <= limit ==> Of(Stdout, kept) == Sent(Stdout, events) && Of(Stderr, kept) == Sent(Stderr, events))
  {
    CapturedPrefixes(limit, events);
    SentIsProjection(Stdout, events);
    SentIsProjection(Stderr, events);
    StreamsShareTheBytes(Interleaved(events));
  }
}
