/**
 Telemetry lines from a worker: bytes arrive in arbitrary pieces, are framed by line feeds in a
 bounded buffer, and the lines that carry the event prefix are checked and passed on.
 */
module EventStream {
  import opened Words
  import opened Wrappers

  type Bytes = seq<byte>

  const LF: byte := 10

  function Prefix(): (p: Bytes)
    ensures |p| == 9 && LF !in p
  {
    [84, 67, 95, 69, 86, 69, 78, 84, 9]
  }

  /** The longest line that is kept: prefix and 128 KiB of JSON. */
  function Limit(): (n: nat)
    ensures n == 128 * 1024 + |Prefix()|
  {
    128 * 1024 + |Prefix()|
  }

  predicate Prefixed(line: Bytes) { Prefix() <= line }

  // ---------- what a line says ----------

  datatype Origin = Origin(job: string, request: string, digest: string, container: string, runtime: string)

  datatype Resolution = Resolution(container: string, selection: Bytes)

  /** The phase in UTF-8 units. */
  datatype NativeEvent = NativeEvent(sequence: int, phase: string, completed: int, total: int, elapsed: real)

  datatype Payload = Resolved(resolution: Resolution) | Progress(event: NativeEvent) | Other(kind: string)

  datatype Wire = Wire(version: int, sequence: int, origin: Origin, payload: Payload)

  /** What the consumer was created with. decode and binds stand for the JSON decoder and for the
      check of a resolution against the request. streaming: the worker reports a resolution first. */
  datatype Config = Config(origin: Origin, streaming: bool,
                           decode: Bytes -> Option<Wire>, binds: Resolution -> bool)

  /** calls: the callbacks made so far. */
  datatype Stream = Stream(pending: Bytes, discarding: bool, failed: bool, sequence: int, nativeSequence: int,
                           resolution: Option<Resolution>, calls: seq<Payload>)

  function Start(): Stream { Stream([], false, false, 0, -1, None, []) }

  predicate Sane(e: NativeEvent) {
    && e.phase != "" && |e.phase| <= 128
    && 0 <= e.completed <= e.total && e.elapsed >= 0.0
  }

  predicate ResolvesOnce(cfg: Config, s: Stream, r: Resolution) {
    cfg.streaming && s.resolution.None? && cfg.binds(r) && r.container == "cli_worker"
  }

  predicate Progresses(cfg: Config, s: Stream, e: NativeEvent) {
    (cfg.streaming ==> s.resolution.Some?) && e.sequence > s.nativeSequence && Sane(e)
  }

  predicate Correlated(cfg: Config, s: Stream, w: Wire) {
    w.version == 1 && w.sequence > s.sequence && w.origin == cfg.origin
  }

  /** The effect of an accepted message; anything else fails the stream. */
  function Accept(cfg: Config, s: Stream, w: Wire): Stream {
    if !Correlated(cfg, s, w) then s.(failed := true)
    else match w.payload
      case Resolved(r) =>
        if ResolvesOnce(cfg, s, r)
        then s.(resolution := Some(r), sequence := w.sequence, calls := s.calls + [w.payload])
        else s.(failed := true)
      case Progress(e) =>
        if Progresses(cfg, s, e)
        then s.(nativeSequence := e.sequence, sequence := w.sequence, calls := s.calls + [w.payload])
        else s.(failed := true)
      case Other(_) => s.(failed := true)
  }

  function Line(cfg: Config, s: Stream, line: Bytes): Stream {
    if !Prefixed(line) then s
    else match cfg.decode(line[|Prefix()|..])
      case None => s.(failed := true)
      case Some(w) => Accept(cfg, s, w)
  }

  /** What a line comes to. Lines that do not begin with the eight letters and the tabulator are
      diagnostics. An event is accepted exactly if it decodes to a message of version 1 of this request,
      numbered after the last, with the one resolution that the request binds, or with progress after
      it, numbered after the last progress, with a short phase and counts in order; accepting it is one
      callback and the two numbers, and anything else fails the stream. */
  lemma LineMeans(cfg: Config, s: Stream, data: Bytes)
    requires !s.failed
    ensures Prefix() == ['T' as int, 'C' as int, '_' as int, 'E' as int, 'V' as int, 'E' as int, 'N' as int, 'T' as int, '\t' as int]
    ensures !(Prefix() <= data) ==> Line(cfg, s, data) == s
    ensures var t := Line(cfg, s, Prefix() + data);
            if cfg.decode(data).None? then t == s.(failed := true)
            else
              var w := cfg.decode(data).value;
              var good := match w.payload
                case Resolved(r) => cfg.streaming && s.resolution.None? && cfg.binds(r) && r.container == "cli_worker"
                case Progress(e) =>
                  && (cfg.streaming ==> s.resolution.Some?) && e.sequence > s.nativeSequence
                  && 0 < |e.phase| <= 128 && 0 <= e.completed && e.completed <= e.total && e.elapsed >= 0.0
                case Other(_) => false;
              if w.version == 1 && w.sequence > s.sequence && w.origin == cfg.origin && good then
                && !t.failed && t.sequence == w.sequence && t.calls == s.calls + [w.payload]
                && t.resolution == (if w.payload.Resolved? then Some(w.payload.resolution) else s.resolution)
                && t.nativeSequence == (if w.payload.Progress? then w.payload.event.sequence else s.nativeSequence)
                && t.pending == s.pending && t.discarding == s.discarding
              else t == s.(failed := true)
  {
    var line := Prefix() + data;
    assert Prefixed(line) && line[|Prefix()|..] == data;
  }

  // ---------- byte by byte ----------

  function Append(s: Stream, b: byte): Stream {
    var pending := s.pending + [b];
    if |pending| <= Limit() then s.(pending := pending)
    else if Prefixed(pending) then s.(pending := pending, failed := true)
    else s.(pending := [], discarding := true)
  }

  function EndLine(cfg: Config, s: Stream): Stream {
    var t := if s.discarding then s else Line(cfg, s, s.pending);
    if t.failed then t else t.(pending := [], discarding := false)
  }

  function Step(cfg: Config, s: Stream, b: byte): Stream {
    if s.failed then s
    else if b == LF then EndLine(cfg, s)
    else if s.discarding then s
    else Append(s, b)
  }

  function Feed(cfg: Config, s: Stream, data: Bytes): Stream
    decreases |data|
  {
    if data == [] then s else Feed(cfg, Step(cfg, s, data[0]), data[1..])
  }

  function FeedAll(cfg: Config, s: Stream, chunks: seq<Bytes>): Stream
    decreases |chunks|
  {
    if chunks == [] then s else FeedAll(cfg, Feed(cfg, s, chunks[0]), chunks[1..])
  }

  function Flatten(chunks: seq<Bytes>): Bytes {
    if chunks == [] then [] else chunks[0] + Flatten(chunks[1..])
  }

  lemma {:induction false} FeedConcat(cfg: Config, s: Stream, a: Bytes, b: Bytes)
    ensures Feed(cfg, s, a + b) == Feed(cfg, Feed(cfg, s, a), b)
    decreases |a|
  {
    hide Step;
    if a == [] {
      assert a + b == b;
    } else {
      assert (a + b)[0] == a[0] && (a + b)[1..] == a[1..] + b;
      FeedConcat(cfg, Step(cfg, s, a[0]), a[1..], b);
    }
  }

  /** Pieces do not matter: callbacks, failure and buffer are those of the whole stream. */
  lemma {:induction false} ChunksDoNotMatter(cfg: Config, s: Stream, chunks: seq<Bytes>)
    ensures FeedAll(cfg, s, chunks) == Feed(cfg, s, Flatten(chunks))
    decreases |chunks|
  {
    if chunks != [] {
      FeedConcat(cfg, s, chunks[0], Flatten(chunks[1..]));
      ChunksDoNotMatter(cfg, Feed(cfg, s, chunks[0]), chunks[1..]);
    }
  }

  lemma {:induction false} FailureIsSticky(cfg: Config, s: Stream, data: Bytes)
    requires s.failed
    ensures Feed(cfg, s, data) == s
    decreases |data|
  {
    if data != [] { FailureIsSticky(cfg, s, data[1..]); }
  }

  /** The buffer holds at most one byte more than the limit, and only after a failure. */
  ghost predicate Bounded(s: Stream) {
    && |s.pending| <= Limit() + 1 && (!s.failed ==> |s.pending| <= Limit())
    && (s.discarding ==> s.pending == [])
  }

  lemma {:induction false} FeedIsBounded(cfg: Config, s: Stream, data: Bytes)
    requires Bounded(s)
    ensures Bounded(Feed(cfg, s, data))
    decreases |data|
  {
    if data != [] {
      assert Bounded(Step(cfg, s, data[0]));
      hide Step, Bounded;
      FeedIsBounded(cfg, Step(cfg, s, data[0]), data[1..]);
    }
  }

  // ---------- line by line ----------

  /** What a whole line does to a stream between two lines. */
  function WholeLine(cfg: Config, s: Stream, line: Bytes): Stream {
    if s.failed || !Prefixed(line) then s
    else if |line| > Limit() then s.(failed := true)
    else Line(cfg, s, line)
  }

  function WholeLines(cfg: Config, s: Stream, lines: seq<Bytes>): Stream
    decreases |lines|
  {
    if lines == [] then s else WholeLines(cfg, WholeLine(cfg, s, lines[0]), lines[1..])
  }

  /** A line that has not ended. */
  function Unfinished(s: Stream, rest: Bytes): Stream {
    if s.failed || |rest| <= Limit() then s.(pending := rest)
    else if Prefixed(rest) then s.(failed := true)
    else s.(discarding := true)
  }

  /** After a failure the buffer no longer matters. */
  function Visible(s: Stream): Stream {
    if s.failed then s.(pending := [], discarding := false) else s
  }

  predicate IsLine(line: Bytes) { LF !in line }

  predicate AreLines(lines: seq<Bytes>) { forall i :: 0 <= i < |lines| ==> IsLine(lines[i]) }

  function Join(lines: seq<Bytes>): Bytes {
    if lines == [] then [] else lines[0] + [LF] + Join(lines[1..])
  }

  /** The complete lines of a stream and what follows the last line feed. */
  function Split(data: Bytes): (r: (seq<Bytes>, Bytes))
    ensures AreLines(r.0) && IsLine(r.1)
    decreases |data|
  {
    if data == [] then ([], [])
    else
      var (lines, rest) := Split(data[1..]);
      if data[0] == LF then ([[]] + lines, rest)
      else if lines == [] then ([], [data[0]] + rest)
      else ([[data[0]] + lines[0]] + lines[1..], rest)
  }

  lemma {:induction false} SplitIsExact(data: Bytes)
    ensures Join(Split(data).0) + Split(data).1 == data
    decreases |data|
  {
    if data != [] {
      SplitIsExact(data[1..]);
      var (lines, rest) := Split(data[1..]);
      assert data == [data[0]] + data[1..];
      if data[0] == LF {
        assert ([[]] + lines)[1..] == lines;
      } else if lines != [] {
        assert ([[data[0]] + lines[0]] + lines[1..])[1..] == lines[1..];
        assert [data[0]] + lines[0] + [LF] + Join(lines[1..]) == [data[0]] + (lines[0] + [LF] + Join(lines[1..]));
      }
    }
  }

  /** Inside a line bytes are only collected, dropped once too many, or refused. */
  lemma {:induction false} FeedInside(cfg: Config, s: Stream, before: Bytes, rest: Bytes)
    requires !s.failed && !s.discarding && s.pending == before && |before| <= Limit() && IsLine(rest)
    ensures Visible(Feed(cfg, s, rest)) == Visible(Unfinished(s.(pending := []), before + rest))
    ensures !Feed(cfg, s, rest).failed && |before + rest| <= Limit() ==> Feed(cfg, s, rest) == s.(pending := before + rest)
    decreases |rest|
  {
    if rest == [] {
      assert before + rest == before;
    } else {
      var b := rest[0];
      var longer := before + [b];
      assert before + rest == longer + rest[1..];
      assert IsLine(rest[1..]);
      if |longer| <= Limit() {
        FeedInside(cfg, s.(pending := longer), longer, rest[1..]);
      } else if Prefixed(longer) {
        FailureIsSticky(cfg, s.(pending := longer, failed := true), rest[1..]);
        assert Prefixed(before + rest);
      } else {
        Discarding(cfg, s.(pending := [], discarding := true), rest[1..]);
        assert !Prefixed(before + rest) by {
          assert longer == (before + rest)[..|longer|];
          PrefixOfLonger(before + rest, |longer|);
        }
      }
    }
  }

  lemma PrefixOfLonger(line: Bytes, n: nat)
    requires 9 <= n <= |line|
    ensures Prefixed(line[..n]) == Prefixed(line)
  {
    assert line[..n][..9] == line[..9];
  }

  lemma {:induction false} Discarding(cfg: Config, s: Stream, rest: Bytes)
    requires !s.failed && s.discarding && IsLine(rest)
    ensures Feed(cfg, s, rest) == s
    decreases |rest|
  {
    if rest != [] { Discarding(cfg, s, rest[1..]); }
  }

  lemma FeedOneLine(cfg: Config, s: Stream, line: Bytes)
    requires !s.failed && !s.discarding && s.pending == [] && IsLine(line)
    ensures Visible(Feed(cfg, s, line + [LF])) == Visible(WholeLine(cfg, s, line))
  {
    FeedConcat(cfg, s, line, [LF]);
    FeedInside(cfg, s, [], line);
    assert [] + line == line;
    var t := Feed(cfg, s, line);
    assert Feed(cfg, t, [LF]) == Step(cfg, t, LF);
    LineKeepsBuffer(cfg, s, line, line);
    hide Line, Feed;
  }

  /** Checking a line reads only the line. */
  lemma LineKeepsBuffer(cfg: Config, s: Stream, pending: Bytes, line: Bytes)
    ensures Line(cfg, s.(pending := pending), line) == Line(cfg, s, line).(pending := pending)
    ensures Line(cfg, s, line).pending == s.pending && Line(cfg, s, line).discarding == s.discarding
  {
  }

  lemma {:induction false} FeedVisible(cfg: Config, s: Stream, t: Stream, data: Bytes)
    requires Visible(s) == Visible(t)
    ensures Visible(Feed(cfg, s, data)) == Visible(Feed(cfg, t, data))
  {
    if s.failed {
      FailureIsSticky(cfg, s, data);
      FailureIsSticky(cfg, t, data);
    }
  }

  lemma {:induction false} FeedLines(cfg: Config, s: Stream, lines: seq<Bytes>, rest: Bytes)
    requires !s.discarding && s.pending == [] && AreLines(lines) && IsLine(rest)
    ensures Visible(Feed(cfg, s, Join(lines) + rest)) == Visible(Unfinished(WholeLines(cfg, s, lines), rest))
    decreases |lines|
  {
    if s.failed {
      FailureIsSticky(cfg, s, Join(lines) + rest);
      WholeLinesFailed(cfg, s, lines);
    } else if lines == [] {
      assert Join(lines) + rest == rest && [] + rest == rest;
      FeedInside(cfg, s, [], rest);
    } else {
      var tail := Join(lines[1..]) + rest;
      assert Join(lines) + rest == (lines[0] + [LF]) + tail;
      FeedConcat(cfg, s, lines[0] + [LF], tail);
      FeedOneLine(cfg, s, lines[0]);
      var t := WholeLine(cfg, s, lines[0]);
      LineKeepsBuffer(cfg, s, [], lines[0]);
      FeedVisible(cfg, Feed(cfg, s, lines[0] + [LF]), t, tail);
      FeedLines(cfg, t, lines[1..], rest);
    }
  }

  lemma {:induction false} WholeLinesFailed(cfg: Config, s: Stream, lines: seq<Bytes>)
    requires s.failed
    ensures WholeLines(cfg, s, lines) == s
    decreases |lines|
  {
    if lines != [] { WholeLinesFailed(cfg, s, lines[1..]); }
  }

  /** However it arrives, a stream means: split it at the line feeds, skip lines without the prefix,
      fail on an overlong line with it, and check the others in order. */
  lemma FramingIsSplitting(cfg: Config, chunks: seq<Bytes>)
    ensures var (lines, rest) := Split(Flatten(chunks));
            Visible(FeedAll(cfg, Start(), chunks)) == Visible(Unfinished(WholeLines(cfg, Start(), lines), rest))
  {
    ChunksDoNotMatter(cfg, Start(), chunks);
    var (lines, rest) := Split(Flatten(chunks));
    SplitIsExact(Flatten(chunks));
    FeedLines(cfg, Start(), lines, rest);
  }

  // ---------- what the callbacks can say ----------

  /** One resolution, before all progress, and progress in increasing order. */
  ghost predicate Orderly(cfg: Config, s: Stream) {
    && (forall i :: 0 <= i < |s.calls| ==> !s.calls[i].Other?)
    && (forall i :: 0 <= i < |s.calls| ==> (s.calls[i].Resolved? <==> i == 0 && cfg.streaming))
    && (forall i, j :: 0 <= i < j < |s.calls| && s.calls[i].Progress? && s.calls[j].Progress? ==>
          s.calls[i].event.sequence < s.calls[j].event.sequence)
    && (forall i :: 0 <= i < |s.calls| && s.calls[i].Progress? ==>
          Sane(s.calls[i].event) && s.calls[i].event.sequence <= s.nativeSequence)
    && (s.resolution.Some? <==> cfg.streaming && s.calls != [])
    && (s.resolution.Some? ==> s.calls[0] == Resolved(s.resolution.value) && cfg.binds(s.resolution.value))
  }

  lemma AcceptIsOrderly(cfg: Config, s: Stream, w: Wire)
    requires Orderly(cfg, s)
    ensures Orderly(cfg, Accept(cfg, s, w))
  {
    hide Sane, Correlated;
  }

  /** Whatever bytes a worker sends, the callbacks are orderly. */
  lemma {:induction false} CallbacksAreOrderly(cfg: Config, s: Stream, data: Bytes)
    requires Orderly(cfg, s)
    ensures Orderly(cfg, Feed(cfg, s, data))
    decreases |data|
  {
    if data != [] {
      StepIsOrderly(cfg, s, data[0]);
      hide Step, Orderly;
      CallbacksAreOrderly(cfg, Step(cfg, s, data[0]), data[1..]);
    }
  }

  lemma StepIsOrderly(cfg: Config, s: Stream, b: byte)
    requires Orderly(cfg, s)
    ensures Orderly(cfg, Step(cfg, s, b))
  {
    if Prefixed(s.pending) {
      var message := cfg.decode(s.pending[|Prefix()|..]);
      if message.Some? { AcceptIsOrderly(cfg, s, message.value); }
    }
    hide Accept, Sane;
  }

  /** The line carries an event of this request with that payload. */
  predicate Carries(cfg: Config, line: Bytes, payload: Payload) {
    && Prefixed(line) && |line| <= Limit()
    && var w := cfg.decode(line[|Prefix()|..]);
       w.Some? && w.value.version == 1 && w.value.origin == cfg.origin && w.value.payload == payload
  }

  /** Every callback comes from a line of its own, in the same order, that carries this request's
      identity; no line is passed on twice. */
  ghost predicate FromLines(cfg: Config, calls: seq<Payload>, lines: seq<Bytes>)
    decreases |lines|
  {
    if lines == [] then calls == []
    else
      || FromLines(cfg, calls, lines[..|lines| - 1])
      || (calls != [] && Carries(cfg, lines[|lines| - 1], calls[|calls| - 1])
          && FromLines(cfg, calls[..|calls| - 1], lines[..|lines| - 1]))
  }

  lemma {:induction false} CallbacksComeFromLines(cfg: Config, s: Stream, before: seq<Bytes>, lines: seq<Bytes>)
    requires FromLines(cfg, s.calls, before)
    ensures FromLines(cfg, WholeLines(cfg, s, lines).calls, before + lines)
    decreases |lines|
  {
    if lines == [] {
      assert before + lines == before;
    } else {
      var t := WholeLine(cfg, s, lines[0]);
      OneMoreLine(cfg, s, before, lines[0]);
      assert (before + [lines[0]]) + lines[1..] == before + lines;
      hide WholeLine, FromLines;
      CallbacksComeFromLines(cfg, t, before + [lines[0]], lines[1..]);
    }
  }

  lemma OneMoreLine(cfg: Config, s: Stream, before: seq<Bytes>, line: Bytes)
    requires FromLines(cfg, s.calls, before)
    ensures FromLines(cfg, WholeLine(cfg, s, line).calls, before + [line])
  {
    var longer := before + [line];
    assert longer[..|longer| - 1] == before;
    var calls := WholeLine(cfg, s, line).calls;
    assert calls == s.calls || (calls != [] && calls[..|calls| - 1] == s.calls && Carries(cfg, line, calls[|calls| - 1]));
    hide WholeLine, Carries;
  }

  /** However the stream arrives, its callbacks come from its complete lines. */
  lemma CallbacksAreCorrelated(cfg: Config, chunks: seq<Bytes>)
    ensures FromLines(cfg, FeedAll(cfg, Start(), chunks).calls, Split(Flatten(chunks)).0)
  {
    var lines := Split(Flatten(chunks)).0;
    FramingIsSplitting(cfg, chunks);
    CallbacksComeFromLines(cfg, Start(), [], lines);
    assert [] + lines == lines;
    hide FromLines, FeedAll, WholeLines, Split, Flatten;
  }

  // ---------- the class ----------

  class WorkerEventStream {
    const cfg: Config
    var pending: Bytes
    var discarding: bool
    var failed: bool
    var sequence: int
    var nativeSequence: int
    var resolution: Option<Resolution>
    var calls: seq<Payload>

    function State(): Stream
      reads this
    {
      Stream(pending, discarding, failed, sequence, nativeSequence, resolution, calls)
    }

    constructor (cfg: Config)
      ensures this.cfg == cfg && State() == Start()
    {
      this.cfg := cfg;
      pending, discarding, failed, sequence, nativeSequence, resolution, calls := [], false, false, 0, -1, None, [];
    }

    method CheckLine(line: Bytes) returns (ok: bool)
      requires !failed
      modifies this`sequence, this`nativeSequence, this`resolution, this`calls
      ensures ok == !Line(cfg, old(State()), line).failed
      ensures ok ==> State() == Line(cfg, old(State()), line)
      ensures !ok ==> State() == old(State())
    {
      if !Prefixed(line) { return true; }
      var message := cfg.decode(line[|Prefix()|..]);
      if message.None? { return false; }
      var w := message.value;
      if w.version != 1 || w.sequence <= sequence || w.origin != cfg.origin { return false; }
      match w.payload {
      case Resolved(value) =>
        if !cfg.streaming || resolution.Some? || !cfg.binds(value) || value.container != "cli_worker" { return false; }
        resolution, calls := Some(value), calls + [w.payload];
      case Progress(value) =>
        if (cfg.streaming && resolution.None?) || value.sequence <= nativeSequence || !Sane(value) { return false; }
        nativeSequence, calls := value.sequence, calls + [w.payload];
      case Other(_) => return false;
      }
      sequence := w.sequence;
      return true;
    }

    /** One piece of the stream. */
    method Consume(data: Bytes) returns (ok: bool)
      modifies this
      ensures State() == Feed(cfg, old(State()), data)
      ensures ok ==> !failed
      ensures !ok ==> failed
    {
      if failed {
        FailureIsSticky(cfg, State(), data);
        return false;
      }
      var i := 0;
      while i < |data|
        invariant i <= |data| && !failed
        invariant Feed(cfg, State(), data[i..]) == Feed(cfg, old(State()), data)
      {
        ghost var before := State();
        var b := data[i];
        assert data[i..][0] == b && data[i..][1..] == data[i + 1..];
        i := i + 1;
        ok := Take(b);
        hide Step;
        if !ok {
          FailureIsSticky(cfg, State(), data[i..]);
          return false;
        }
      }
      return true;
    }

    method Take(b: byte) returns (ok: bool)
      requires !failed
      modifies this
      ensures State() == Step(cfg, old(State()), b) && ok == !failed
    {
      ok := true;
      if b == LF {
        if !discarding {
          ok := CheckLine(pending);
          if !ok { failed := true; LineFailure(cfg, old(State()), old(pending)); return; }
        }
        pending, discarding := [], false;
      } else if !discarding {
        pending := pending + [b];
        if |pending| > Limit() {
          if Prefixed(pending) { failed := true; return false; }
          pending, discarding := [], true;
        }
      }
    }

    /** The worker has exited: no failure, no half event, and the same resolution as the result. */
    method Finish(terminal: Option<Resolution>) returns (ok: bool)
      ensures ok == Finished(State(), terminal)
    {
      if failed || Prefixed(pending) { return false; }
      if resolution.Some? && terminal.Some? { return resolution.value == terminal.value; }
      return true;
    }
  }

  predicate Finished(s: Stream, terminal: Option<Resolution>) {
    !s.failed && !Prefixed(s.pending) && (s.resolution.Some? && terminal.Some? ==> s.resolution == terminal)
  }

  /** A refused line changes nothing but the failure mark. */
  lemma LineFailure(cfg: Config, s: Stream, line: Bytes)
    requires !s.failed && Line(cfg, s, line).failed
    ensures Line(cfg, s, line) == s.(failed := true)
  {
  }
}
