/**
 The worker's side of the telemetry: bounded, throttled event lines on a stream it shares with
 ordinary diagnostics; and the agreement of both sides.
 */
module EventEmitter {
  import opened Words
  import opened Wrappers
  import opened EventStream

  const MESSAGE_LIMIT := 128 * 1024
  const TOTAL_LIMIT := 512 * 1024
  const JSON_LIMIT := 16 * 1024
  const CADENCE := 250

  /** What happens in the worker. A report has the time in milliseconds, the length of the native
      JSON and what it says, if it is an object with a phase. */
  datatype Op =
    | Begin
    | Resolve(resolution: Resolution)
    | Report(now: int, size: nat, event: Option<NativeEvent>)
    | Diagnostic(line: Bytes)

  type Encoder = Wire -> Bytes

  /** stderr: everything written. emitted: the payloads of all event lines. */
  datatype Emitter = Emitter(bytes: nat, sequence: nat, last: int, phase: Option<string>, sent: bool,
                             stderr: Bytes, emitted: seq<Payload>)

  function Idle(): Emitter { Emitter(0, 0, 0, None, false, [], []) }

  function EventLine(data: Bytes): Bytes { Prefix() + data }

  function Message(origin: Origin, e: Emitter, payload: Payload): Wire {
    Wire(1, e.sequence + 1, origin, payload)
  }

  predicate HasRoom(e: Emitter, data: Bytes) {
    |data| <= MESSAGE_LIMIT && e.bytes + |data| + |Prefix()| + 1 <= TOTAL_LIMIT
  }

  /** An event is written whole or not at all; only written events take a number. */
  function Emit(origin: Origin, encode: Encoder, e: Emitter, payload: Payload): Emitter {
    var data := encode(Message(origin, e, payload));
    if !HasRoom(e, data) then e
    else e.(bytes := e.bytes + |data| + |Prefix()| + 1, sequence := e.sequence + 1,
            stderr := e.stderr + (EventLine(data) + [LF]), emitted := e.emitted + [payload])
  }

  /** Blocks are never reported; a phase that goes on is reported four times a second at most. */
  predicate Due(e: Emitter, now: int, event: NativeEvent) {
    && event.phase != "transformer_block" && event.phase != "z_image_denoise_block"
    && (event.phase == "preview" || e.phase != Some(event.phase) || now - e.last >= CADENCE)
  }

  function Apply(origin: Origin, encode: Encoder, e: Emitter, op: Op): Emitter {
    match op
    case Begin => e.(sent := true)
    case Resolve(r) =>
      var t := Emit(origin, encode, e, Resolved(r));
      t.(sent := t.sequence > e.sequence)
    case Report(now, size, event) =>
      if !e.sent || size > JSON_LIMIT || event.None? || !Due(e, now, event.value) then e
      else Emit(origin, encode, e, Progress(event.value)).(last := now, phase := Some(event.value.phase))
    case Diagnostic(line) => e.(stderr := e.stderr + (line + [LF]))
  }

  function Run(origin: Origin, encode: Encoder, e: Emitter, ops: seq<Op>): Emitter
    decreases |ops|
  {
    if ops == [] then e else Run(origin, encode, Apply(origin, encode, e, ops[0]), ops[1..])
  }

  // ---------- the class ----------

  class Events {
    const origin: Origin
    const encode: Encoder
    var bytes: nat
    var sequence: nat
    var last: int
    var phase: Option<string>
    var resolvedSent: bool
    var stderr: Bytes
    ghost var emitted: seq<Payload>

    ghost function State(): Emitter
      reads this
    {
      Emitter(bytes, sequence, last, phase, resolvedSent, stderr, emitted)
    }

    constructor (origin: Origin, encode: Encoder)
      ensures this.origin == origin && this.encode == encode && State() == Idle()
    {
      this.origin, this.encode := origin, encode;
      bytes, sequence, last, phase, resolvedSent, stderr, emitted := 0, 0, 0, None, false, [], [];
    }

    method Write(payload: Payload) returns (written: bool)
      modifies this
      ensures State() == Emit(origin, encode, old(State()), payload)
      ensures written == (sequence > old(sequence))
    {
      var data := encode(Wire(1, sequence + 1, origin, payload));
      if |data| > MESSAGE_LIMIT || bytes + |data| + |Prefix()| + 1 > TOTAL_LIMIT { return false; }
      sequence := sequence + 1;
      bytes := bytes + |data| + |Prefix()| + 1;
      stderr := stderr + (Prefix() + data + [LF]);
      emitted := emitted + [payload];
      return true;
    }

    method ReportResolution(resolution: Resolution)
      modifies this
      ensures State() == Apply(origin, encode, old(State()), Resolve(resolution))
    {
      resolvedSent := Write(Resolved(resolution));
    }

    method BeginRuntime()
      modifies this
      ensures State() == Apply(origin, encode, old(State()), Begin)
    {
      resolvedSent := true;
    }

    method ReportProgress(now: int, size: nat, event: Option<NativeEvent>)
      modifies this
      ensures State() == Apply(origin, encode, old(State()), Report(now, size, event))
    {
      if !resolvedSent || size > JSON_LIMIT || event.None? { return; }
      var value := event.value;
      if value.phase == "transformer_block" || value.phase == "z_image_denoise_block" { return; }
      if value.phase != "preview" && phase == Some(value.phase) && now - last < CADENCE { return; }
      var written := Write(Progress(value));
      last, phase := now, Some(value.phase);
    }
  }

  // ---------- the budget ----------

  function DiagnosticBytes(ops: seq<Op>): nat {
    if ops == [] then 0
    else (if ops[0].Diagnostic? then |ops[0].line| + 1 else 0) + DiagnosticBytes(ops[1..])
  }

  /** Whatever happens, all event lines together stay within the budget, and every byte on the
      stream is an event's or a diagnostic's. */
  lemma {:induction false} BudgetIsKept(origin: Origin, encode: Encoder, e: Emitter, ops: seq<Op>)
    requires e.bytes <= TOTAL_LIMIT
    ensures var r := Run(origin, encode, e, ops);
            && r.bytes <= TOTAL_LIMIT
            && |r.stderr| - r.bytes == |e.stderr| - e.bytes + DiagnosticBytes(ops)
            && r.sequence - |r.emitted| == e.sequence - |e.emitted|
    decreases |ops|
  {
    if ops != [] {
      BudgetIsKept(origin, encode, Apply(origin, encode, e, ops[0]), ops[1..]);
    }
  }

  // ---------- the cadence ----------

  /** Nothing but reports of one phase and diagnostics. */
  predicate OnlyPhase(ops: seq<Op>, phase: string) {
    forall i :: 0 <= i < |ops| ==>
      ops[i].Diagnostic? || (ops[i].Report? && (ops[i].event.Some? ==> ops[i].event.value.phase == phase))
  }

  /** While one phase goes on, each event after its first takes a quarter of a second, however
      often the native side reports. */
  lemma {:induction false} CadenceIsKept(origin: Origin, encode: Encoder, e: Emitter, ops: seq<Op>, phase: string)
    requires OnlyPhase(ops, phase) && phase != "preview" && e.phase == Some(phase)
    ensures var r := Run(origin, encode, e, ops);
            CADENCE * (|r.emitted| - |e.emitted|) <= r.last - e.last
    decreases |ops|
  {
    if ops != [] {
      var t := Apply(origin, encode, e, ops[0]);
      assert t.phase == Some(phase) && CADENCE * (|t.emitted| - |e.emitted|) <= t.last - e.last;
      hide Apply;
      CadenceIsKept(origin, encode, t, ops[1..], phase);
    }
  }

  /** Nothing else is dropped: a report that leaves no event, while reports are sent, is too large, of a
      block, does not fit the limits of a message or of the stream, or repeats the phase of the last
      report within a quarter of a second. */
  lemma NothingElseIsDropped(origin: Origin, encode: Encoder, e: Emitter, now: int, size: nat, event: NativeEvent)
    requires e.sent
    ensures var t := Apply(origin, encode, e, Report(now, size, Some(event)));
            var line := |encode(Wire(1, e.sequence + 1, origin, Progress(event)))|;
            var dropped :=
              || size > 16 * 1024 || line > 128 * 1024 || e.bytes + line + |Prefix()| + 1 > 512 * 1024
              || event.phase == "transformer_block" || event.phase == "z_image_denoise_block"
              || (event.phase != "preview" && e.phase == Some(event.phase) && now < e.last + 250);
            && t.emitted == (if dropped then e.emitted else e.emitted + [Progress(event)])
            && (!dropped ==> t.phase == Some(event.phase) && t.last == now && t.sequence == e.sequence + 1)
  {
  }

  ghost predicate NoBlocks(emitted: seq<Payload>) {
    forall i :: 0 <= i < |emitted| && emitted[i].Progress? ==>
      emitted[i].event.phase != "transformer_block" && emitted[i].event.phase != "z_image_denoise_block"
  }

  /** Over every run, blocks of a transformer are never reported. */
  lemma {:induction false} BlocksAreNotReported(origin: Origin, encode: Encoder, e: Emitter, ops: seq<Op>)
    requires NoBlocks(e.emitted)
    ensures NoBlocks(Run(origin, encode, e, ops).emitted)
    decreases |ops|
  {
    if ops != [] {
      var t := Apply(origin, encode, e, ops[0]);
      assert NoBlocks(t.emitted);
      hide Apply, NoBlocks;
      BlocksAreNotReported(origin, encode, t, ops[1..]);
    }
  }

  // ---------- what a run writes ----------

  /** The payload that an operation tries to write. */
  function Offer(e: Emitter, op: Op): Option<Payload> {
    match op
    case Resolve(r) => Some(Resolved(r))
    case Report(now, size, event) =>
      if !e.sent || size > JSON_LIMIT || event.None? || !Due(e, now, event.value) then None
      else Some(Progress(event.value))
    case _ => None
  }

  /** The message that an operation does write. */
  function Written(origin: Origin, encode: Encoder, e: Emitter, op: Op): Option<Wire> {
    var payload := Offer(e, op);
    if payload.Some? && HasRoom(e, encode(Message(origin, e, payload.value)))
    then Some(Message(origin, e, payload.value)) else None
  }

  function Messages(origin: Origin, encode: Encoder, e: Emitter, ops: seq<Op>): seq<Wire>
    decreases |ops|
  {
    if ops == [] then []
    else
      var w := Written(origin, encode, e, ops[0]);
      (if w.Some? then [w.value] else []) + Messages(origin, encode, Apply(origin, encode, e, ops[0]), ops[1..])
  }

  lemma ApplyWrites(origin: Origin, encode: Encoder, e: Emitter, op: Op)
    ensures var t, w := Apply(origin, encode, e, op), Written(origin, encode, e, op);
            && (w.Some? ==>
                  t.sequence == e.sequence + 1 && t.emitted == e.emitted + [w.value.payload]
                  && t.stderr == e.stderr + (EventLine(encode(w.value)) + [LF]))
            && (w.None? ==>
                  t.sequence == e.sequence && t.emitted == e.emitted
                  && t.stderr == if op.Diagnostic? then e.stderr + (op.line + [LF]) else e.stderr)
            && t.sent == if op.Begin? then true else if op.Resolve? then w.Some? else e.sent
  {
    hide Due, HasRoom;
  }

  // ---------- both sides agree ----------

  /** The consumer decodes what the worker encodes, and compact JSON has no line feed. */
  predicate Readable(cfg: Config, encode: Encoder, w: Wire) {
    cfg.decode(encode(w)) == Some(w) && IsLine(encode(w))
  }

  /** The messages that a run writes are readable. */
  predicate RoundTrips(cfg: Config, encode: Encoder, e: Emitter, ops: seq<Op>)
    decreases |ops|
  {
    ops == []
    || (&& (var w := Written(cfg.origin, encode, e, ops[0]); w.Some? ==> Readable(cfg, encode, w.value))
        && RoundTrips(cfg, encode, Apply(cfg.origin, encode, e, ops[0]), ops[1..]))
  }

  predicate GoodResolution(cfg: Config, r: Resolution) { cfg.binds(r) && r.container == "cli_worker" }

  /** Native events are sane and in increasing order, resolutions are good and a runtime worker
      reports none, and diagnostics are whole lines that do not look like events. */
  predicate WellFormed(cfg: Config, ops: seq<Op>, native: int)
    decreases |ops|
  {
    ops == [] || (GoodOp(cfg, ops[0], native) && WellFormed(cfg, ops[1..], NativeAfter(ops[0], native)))
  }

  predicate GoodOp(cfg: Config, op: Op, native: int) {
    match op
    case Begin => !cfg.streaming
    case Resolve(r) => cfg.streaming && GoodResolution(cfg, r)
    case Report(_, _, event) => event.Some? ==> event.value.sequence > native && Sane(event.value)
    case Diagnostic(line) => IsLine(line) && !Prefixed(line)
  }

  function NativeAfter(op: Op, native: int): int {
    if op.Report? && op.event.Some? then op.event.value.sequence else native
  }

  function Resolutions(emitted: seq<Payload>): nat {
    if emitted == [] then 0
    else Resolutions(emitted[..|emitted| - 1]) + if emitted[|emitted| - 1].Resolved? then 1 else 0
  }

  lemma OneMorePayload(emitted: seq<Payload>, payload: Payload)
    ensures Resolutions(emitted + [payload]) == Resolutions(emitted) + if payload.Resolved? then 1 else 0
  {
    assert (emitted + [payload])[..|emitted|] == emitted;
  }

  /** The consumer of everything written so far: it has made every callback, unless a second
      resolution was written. */
  ghost predicate Agree(cfg: Config, e: Emitter, s: Stream, native: int) {
    if Resolutions(e.emitted) > 1 then s.failed
    else
      && !s.failed && !s.discarding && s.pending == []
      && s.sequence == e.sequence && s.calls == e.emitted && s.nativeSequence <= native
      && (s.resolution.Some? <==> Resolutions(e.emitted) == 1)
      && (e.sent && cfg.streaming ==> s.resolution.Some?)
  }

  /** One more line of the stream, seen by a consumer between two lines. */
  lemma LineArrives(cfg: Config, e: Emitter, t: Emitter, line: Bytes)
    requires IsLine(line) && t.stderr == e.stderr + (line + [LF])
    ensures var s := Feed(cfg, Start(), e.stderr);
            && (s.failed ==> Feed(cfg, Start(), t.stderr) == s)
            && (!s.failed && !s.discarding && s.pending == [] ==>
                  Visible(Feed(cfg, Start(), t.stderr)) == Visible(WholeLine(cfg, s, line)))
  {
    var s := Feed(cfg, Start(), e.stderr);
    FeedConcat(cfg, Start(), e.stderr, line + [LF]);
    if s.failed {
      FailureIsSticky(cfg, s, line + [LF]);
    } else if !s.discarding && s.pending == [] {
      FeedOneLine(cfg, s, line);
    }
    hide Feed, WholeLine;
  }

  /** An event line means its message. */
  lemma EventArrives(cfg: Config, encode: Encoder, s: Stream, w: Wire)
    requires Readable(cfg, encode, w) && |encode(w)| <= MESSAGE_LIMIT && !s.failed
    ensures IsLine(EventLine(encode(w))) && WholeLine(cfg, s, EventLine(encode(w))) == Accept(cfg, s, w)
  {
    var line := EventLine(encode(w));
    assert line[|Prefix()|..] == encode(w);
    hide Accept;
  }

  lemma ApplyAgrees(cfg: Config, encode: Encoder, e: Emitter, op: Op, native: int)
    requires Agree(cfg, e, Feed(cfg, Start(), e.stderr), native) && GoodOp(cfg, op, native)
    requires var w := Written(cfg.origin, encode, e, op); w.Some? ==> Readable(cfg, encode, w.value)
    ensures var t := Apply(cfg.origin, encode, e, op);
            Agree(cfg, t, Feed(cfg, Start(), t.stderr), NativeAfter(op, native))
  {
    var s := Feed(cfg, Start(), e.stderr);
    var t, w := Apply(cfg.origin, encode, e, op), Written(cfg.origin, encode, e, op);
    ApplyWrites(cfg.origin, encode, e, op);
    if w.Some? {
      assert op.Report? ==> e.sent;
      assert |encode(w.value)| <= MESSAGE_LIMIT;
      OneMorePayload(e.emitted, w.value.payload);
      if !s.failed { EventArrives(cfg, encode, s, w.value); }
      assert IsLine(EventLine(encode(w.value)));
      LineArrives(cfg, e, t, EventLine(encode(w.value)));
    } else if op.Diagnostic? {
      LineArrives(cfg, e, t, op.line);
    }
    hide Feed, Apply, Sane, Resolutions, EventLine, HasRoom;
  }

  lemma {:induction false} RunAgrees(cfg: Config, encode: Encoder, e: Emitter, ops: seq<Op>, native: int)
    returns (native': int)
    requires Agree(cfg, e, Feed(cfg, Start(), e.stderr), native)
    requires WellFormed(cfg, ops, native) && RoundTrips(cfg, encode, e, ops)
    ensures var t := Run(cfg.origin, encode, e, ops);
            Agree(cfg, t, Feed(cfg, Start(), t.stderr), native')
    decreases |ops|
  {
    native' := native;
    if ops != [] {
      ApplyAgrees(cfg, encode, e, ops[0], native);
      hide Apply, Feed, Agree, Written, Readable, GoodOp;
      native' := RunAgrees(cfg, encode, Apply(cfg.origin, encode, e, ops[0]), ops[1..], NativeAfter(ops[0], native));
    }
  }

  function ResolveOps(ops: seq<Op>): nat {
    if ops == [] then 0 else (if ops[0].Resolve? then 1 else 0) + ResolveOps(ops[1..])
  }

  lemma {:induction false} ResolutionsAreReported(origin: Origin, encode: Encoder, e: Emitter, ops: seq<Op>)
    ensures Resolutions(Run(origin, encode, e, ops).emitted) <= Resolutions(e.emitted) + ResolveOps(ops)
    decreases |ops|
  {
    if ops != [] {
      var t, w := Apply(origin, encode, e, ops[0]), Written(origin, encode, e, ops[0]);
      ApplyWrites(origin, encode, e, ops[0]);
      if w.Some? { OneMorePayload(e.emitted, w.value.payload); }
      hide Apply, Resolutions, HasRoom;
      ResolutionsAreReported(origin, encode, t, ops[1..]);
    }
  }

  /** Everything a well-formed worker writes, in whatever pieces it arrives, is accepted unless a
      second resolution was written, which needs a second report of one: then the callbacks are
      exactly the emitted payloads in order, one resolution before any progress, and the stream can
      be finished. */
  lemma ProducerAndConsumerAgree(cfg: Config, encode: Encoder, ops: seq<Op>, chunks: seq<Bytes>)
    requires WellFormed(cfg, ops, -1) && RoundTrips(cfg, encode, Idle(), ops)
    requires Flatten(chunks) == Run(cfg.origin, encode, Idle(), ops).stderr
    ensures var r, s := Run(cfg.origin, encode, Idle(), ops), FeedAll(cfg, Start(), chunks);
            && (s.failed <==> Resolutions(r.emitted) > 1)
            && (ResolveOps(ops) <= 1 ==> !s.failed)
            && (!s.failed ==>
                  s.calls == r.emitted && Orderly(cfg, s) && Finished(s, s.resolution) && Finished(s, None))
  {
    ChunksDoNotMatter(cfg, Start(), chunks);
    assert Resolutions(Idle().emitted) == 0;
    var native := RunAgrees(cfg, encode, Idle(), ops, -1);
    ResolutionsAreReported(cfg.origin, encode, Idle(), ops);
    CallbacksAreOrderly(cfg, Start(), Flatten(chunks));
    hide Run, Feed, FeedAll, Orderly, Resolutions, WellFormed, RoundTrips, ResolveOps;
  }

  /** A second resolution is what the consumer refuses: if there is room for two messages, reporting
      a good resolution twice fails the stream. */
  lemma SecondResolutionFails(cfg: Config, encode: Encoder, e: Emitter, r: Resolution)
    requires e == Idle() && cfg.streaming && GoodResolution(cfg, r)
    requires forall n :: n == 1 || n == 2 ==>
               Readable(cfg, encode, Wire(1, n, cfg.origin, Resolved(r)))
               && |encode(Wire(1, n, cfg.origin, Resolved(r)))| <= MESSAGE_LIMIT
    ensures Feed(cfg, Start(), Run(cfg.origin, encode, e, [Resolve(r), Resolve(r)]).stderr).failed
  {
    var ops := [Resolve(r), Resolve(r)];
    var one := Apply(cfg.origin, encode, e, ops[0]);
    var two := Apply(cfg.origin, encode, one, ops[1]);
    assert ops[1..] == [Resolve(r)] && ops[1..][1..] == [];
    assert Readable(cfg, encode, Wire(1, 1, cfg.origin, Resolved(r)));
    assert Readable(cfg, encode, Wire(1, 2, cfg.origin, Resolved(r)));
    ApplyWrites(cfg.origin, encode, e, ops[0]);
    ApplyWrites(cfg.origin, encode, one, ops[1]);
    assert Run(cfg.origin, encode, one, ops[1..]) == two by { assert Run(cfg.origin, encode, two, ops[1..][1..]) == two; }
    assert Resolutions(e.emitted) == 0;
    OneMorePayload(e.emitted, Resolved(r));
    OneMorePayload(one.emitted, Resolved(r));
    hide Feed, Resolutions;
    ApplyAgrees(cfg, encode, e, ops[0], -1);
    ApplyAgrees(cfg, encode, one, ops[1], -1);
  }

  // ---------- such runs exist ----------

  /** A message as its number in strokes. */
  function Strokes(w: Wire): Bytes { if w.sequence > 0 then seq(w.sequence, _ => 120) else [] }

  function Lookup(messages: seq<Wire>): Bytes -> Option<Wire> {
    b => if 1 <= |b| <= |messages| then Some(messages[|b| - 1]) else None
  }

  lemma {:induction false} StrokesAreReadable(cfg: Config, messages: seq<Wire>, e: Emitter, ops: seq<Op>)
    requires cfg.decode == Lookup(messages) && e.sequence <= |messages|
    requires messages[e.sequence..] == Messages(cfg.origin, Strokes, e, ops)
    ensures RoundTrips(cfg, Strokes, e, ops)
    decreases |ops|
  {
    if ops != [] {
      var w, t := Written(cfg.origin, Strokes, e, ops[0]), Apply(cfg.origin, Strokes, e, ops[0]);
      ApplyWrites(cfg.origin, Strokes, e, ops[0]);
      if w.Some? {
        assert messages[e.sequence..][0] == w.value;
        assert messages[e.sequence..][1..] == messages[t.sequence..];
        assert IsLine(Strokes(w.value));
      }
      hide Apply;
      StrokesAreReadable(cfg, messages, t, ops[1..]);
    }
  }

  /** Every run has an encoding that its consumer can read. */
  lemma EveryRunHasACodec(origin: Origin, streaming: bool, binds: Resolution -> bool, ops: seq<Op>) returns (cfg: Config)
    ensures cfg.origin == origin && cfg.streaming == streaming && cfg.binds == binds
    ensures RoundTrips(cfg, Strokes, Idle(), ops)
  {
    var messages := Messages(origin, Strokes, Idle(), ops);
    cfg := Config(origin, streaming, Lookup(messages), binds);
    assert messages[0..] == messages;
    StrokesAreReadable(cfg, messages, Idle(), ops);
  }

  /** A run with a resolution, a diagnostic and a progress report, all of which arrive. */
  lemma ARunArrives(origin: Origin, binds: Resolution -> bool, r: Resolution, event: NativeEvent, line: Bytes)
    returns (cfg: Config, ops: seq<Op>)
    requires binds(r) && r.container == "cli_worker" && Sane(event) && event.sequence >= 0 && event.phase == "denoise"
    requires IsLine(line) && !Prefixed(line)
    ensures WellFormed(cfg, ops, -1) && RoundTrips(cfg, Strokes, Idle(), ops) && cfg.binds == binds
    ensures FeedAll(cfg, Start(), [Run(cfg.origin, Strokes, Idle(), ops).stderr]).calls == [Resolved(r), Progress(event)]
  {
    ops := [Resolve(r), Diagnostic(line), Report(0, 64, Some(event))];
    cfg := EveryRunHasACodec(origin, true, binds, ops);
    var e0 := Idle();
    var e1 := Apply(origin, Strokes, e0, ops[0]);
    var e2 := Apply(origin, Strokes, e1, ops[1]);
    var e3 := Apply(origin, Strokes, e2, ops[2]);
    assert ops[1..] == [ops[1], ops[2]] && ops[1..][1..] == [ops[2]] && ops[1..][1..][1..] == [];
    assert e1.emitted == [Resolved(r)] && e1.sent && e1.sequence == 1 && e1.phase.None?;
    assert e2.emitted == e1.emitted && e2.sent && e2.sequence == 1;
    assert e3.emitted == [Resolved(r), Progress(event)];
    RunOfThree(origin, e0, ops);
    assert ResolveOps(ops) == 1 by { assert ResolveOps(ops[1..]) == ResolveOps(ops[1..][1..]) == 0; }
    assert WellFormed(cfg, ops, -1) by {
      hide Sane, Prefixed, IsLine;
      assert WellFormed(cfg, ops[1..][1..][1..], event.sequence);
      assert WellFormed(cfg, ops[1..][1..], -1);
      assert WellFormed(cfg, ops[1..], -1);
    }
    var chunks := [Run(cfg.origin, Strokes, Idle(), ops).stderr];
    assert chunks[1..] == [] && Flatten(chunks) == chunks[0] + Flatten(chunks[1..]) == chunks[0];
    hide *;
    ProducerAndConsumerAgree(cfg, Strokes, ops, chunks);
  }

  /** A run whose stream is refused: two good resolutions, readable to the consumer. */
  lemma ARunIsRefused(origin: Origin, binds: Resolution -> bool, r: Resolution) returns (cfg: Config, ops: seq<Op>)
    requires binds(r) && r.container == "cli_worker"
    ensures cfg.origin == origin && cfg.binds == binds && ops == [Resolve(r), Resolve(r)]
    ensures WellFormed(cfg, ops, -1) && RoundTrips(cfg, Strokes, Idle(), ops)
    ensures Feed(cfg, Start(), Run(cfg.origin, Strokes, Idle(), ops).stderr).failed
  {
    var messages := [Wire(1, 1, origin, Resolved(r)), Wire(1, 2, origin, Resolved(r))];
    cfg := Config(origin, true, Lookup(messages), binds);
    ops := [Resolve(r), Resolve(r)];
    assert ops[1..] == [Resolve(r)] && ops[1..][1..] == [];
    assert WellFormed(cfg, ops[1..][1..], -1) && WellFormed(cfg, ops[1..], -1);
    forall n | n == 1 || n == 2
      ensures Readable(cfg, Strokes, Wire(1, n, origin, Resolved(r)))
    {
      assert messages[n - 1] == Wire(1, n, origin, Resolved(r)) && |Strokes(messages[n - 1])| == n;
    }
    var one := Apply(origin, Strokes, Idle(), ops[0]);
    ApplyWrites(origin, Strokes, Idle(), ops[0]);
    assert RoundTrips(cfg, Strokes, Apply(origin, Strokes, one, ops[1]), ops[1..][1..]);
    assert RoundTrips(cfg, Strokes, one, ops[1..]);
    SecondResolutionFails(cfg, Strokes, Idle(), r);
    hide *;
  }

  lemma RunOfThree(origin: Origin, e: Emitter, ops: seq<Op>)
    requires |ops| == 3
    ensures Run(origin, Strokes, e, ops)
         == Apply(origin, Strokes, Apply(origin, Strokes, Apply(origin, Strokes, e, ops[0]), ops[1]), ops[2])
  {
    hide Apply;
    var e1 := Apply(origin, Strokes, e, ops[0]);
    var e2 := Apply(origin, Strokes, e1, ops[1]);
    assert ops[1..][1..] == [ops[2]] && [ops[2]][1..] == [];
    assert Run(origin, Strokes, e1, ops[1..]) == Run(origin, Strokes, e2, [ops[2]]);
  }
}
