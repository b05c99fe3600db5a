/**
 Draining a worker's pipes without blocking: bounded reads per round, a cap on what is kept,
 and a final drain after the worker's group is gone.
 */
module Capture {
  import opened Words
  import opened Wrappers

  const BUFFER := 16 * 1024
  const PER_CALL := 256 * 1024

  /** What one read of the pipe returns. */
  datatype Read = Bytes(bytes: seq<byte>) | End | Again | Interrupted | Error

  ghost predicate ValidRead(r: Read) { r.Bytes? ==> 0 < |r.bytes| <= BUFFER }

  datatype Failure = ReadFailed | LimitReached | EventInvalid | NotClosed

  class Pipe {
    const limit: nat
    const observer: Option<seq<byte> -> bool> // does it accept, having seen these bytes in all?
    var script: seq<Read>                     // what later reads return
    var isOpen: bool
    var data: seq<byte>                       // kept
    var seen: seq<byte>                       // passed to the observer
    ghost var produced: seq<byte>             // taken from the pipe

    ghost predicate Valid()
      reads `script, `data, `seen, `produced
    {
      && (forall r :: r in script ==> ValidRead(r))
      && data == Kept(produced, limit)
      && (observer.Some? ==> seen == data)
    }

    constructor (limit: nat, observer: Option<seq<byte> -> bool>, script: seq<Read>)
      requires forall r :: r in script ==> ValidRead(r)
      ensures Valid() && isOpen && this.limit == limit && this.observer == observer && this.script == script
      ensures data == seen == produced == []
    {
      this.limit, this.observer, this.script := limit, observer, script;
      isOpen, data, seen, produced := true, [], [], [];
    }

    method Take() returns (r: Read)
      requires Valid()
      modifies `script
      ensures Valid() && ValidRead(r) && (r.Bytes? ==> r.bytes != [])
      ensures if old(script) == [] then r == Again && script == [] else r == old(script)[0] && script == old(script)[1..]
    {
      if script == [] {
        return Again;
      }
      r := script[0];
      assert r in script;
      script := script[1..];
    }

    /** One read and what is made of it. */
    method ReadOnce() returns (r: Read, failure: Option<Failure>)
      requires Valid() && script != []
      modifies this
      ensures Valid() && r == old(script)[0] && script == old(script)[1..]
      ensures produced == old(produced) + if r.Bytes? then r.bytes else []
      ensures isOpen == (old(isOpen) && !r.End?)
      ensures failure == match r
                         case Bytes(_) => CauseOf(limit, observer, produced)
                         case Error => Some(ReadFailed)
                         case _ => None
    {
      hide CauseOf, Kept;
      failure := None;
      r := Take();
      match r
      case End => isOpen := false;
      case Interrupted =>
      case Again =>
      case Error => failure := Some(ReadFailed);
      case Bytes(bytes) => failure := Keep(bytes);
    }

    /** What a read gave: kept up to the limit and shown to the observer. */
    method Keep(bytes: seq<byte>) returns (failure: Option<Failure>)
      requires Valid() && bytes != []
      modifies `data, `seen, `produced
      ensures Valid() && produced == old(produced) + bytes
      ensures failure == CauseOf(limit, observer, produced)
    {
      var allowed := if |bytes| < limit - |data| then |bytes| else if limit > |data| then limit - |data| else 0;
      KeepMore(produced, bytes, limit);
      hide Kept;
      data := data + bytes[..allowed];
      produced := produced + bytes;
      if observer.Some? {
        seen := seen + bytes[..allowed];
        if !observer.value(seen) {
          return Some(EventInvalid);
        }
      }
      if allowed < |bytes| {
        return Some(LimitReached);
      }
      failure := None;
    }

    /** The reads since the script was as before. */
    ghost function Done(before: seq<Read>): seq<Read>
      reads `script
    {
      if |script| <= |before| then before[..|before| - |script|] else []
    }

    /** What is left is k reads of bytes that fit and are accepted, and then the end. */
    ghost predicate Whole(k: nat)
      reads `script, `produced, `isOpen
    {
      |produced| <= limit && (isOpen ==> Completes(limit, observer, produced, script, k))
    }

    /** All that there will be. */
    ghost function All(k: nat): seq<byte>
      reads `script, `produced, `isOpen
    {
      if isOpen && k <= |script| then produced + Taken(script[..k]) else produced
    }

    /** One bounded drain. It takes the next reads up to the first that ends it and no further, keeps
        the first bytes of all that was ever produced, and says why it ended. */
    method Drain() returns (failure: Option<Failure>)
      requires Valid()
      modifies this
      ensures Valid()
      ensures !old(isOpen) ==> !isOpen && script == old(script) && produced == old(produced) && failure.None?
      ensures old(script) == Done(old(script)) + script && produced == old(produced) + Taken(Done(old(script)))
      // It reads on as long as it can.
      ensures old(isOpen) ==> StopsFirst(limit, observer, old(produced), Done(old(script)))
      ensures old(isOpen) && GoesOn(limit, observer, old(produced), Done(old(script))) ==> script == []
      // The last read decides, and every failure has its own cause.
      ensures isOpen == (old(isOpen) && !Ended(Done(old(script))))
      ensures old(isOpen) ==> failure == Cause(limit, observer, old(produced), Done(old(script)))
      // Nothing is lost unless a failure says so.
      ensures failure.None? && |old(produced)| <= limit ==> |produced| <= limit && data == produced
      ensures old(data) <= data
    {
      failure := None;
      ghost var calls: seq<Read>, script0, produced0 := [], script, produced;
      DataIsKept();
      if !isOpen {
        return;
      }
      var consumed := 0;
      NoCalls(limit, observer, produced);
      hide Valid, Taken, StopsFirst, Kept, GoesOn, Cause, CauseOf, Ended;
      while consumed < PER_CALL
        invariant Valid() && isOpen && failure.None? && !Ended(calls)
        invariant script0 == calls + script && produced == produced0 + Taken(calls) && consumed == |Taken(calls)|
        invariant StopsFirst(limit, observer, produced0, calls)
        invariant if consumed < PER_CALL then GoesOn(limit, observer, produced0, calls)
                  else Cause(limit, observer, produced0, calls).None?
        decreases |script|
      {
        if script == [] {
          break;
        }
        ghost var rest := script;
        var r;
        r, failure := ReadOnce();
        OneMoreRead(limit, observer, produced0, calls, r);
        MoveOne(calls, rest);
        calls := calls + [r];
        if r.End? || r.Again? || failure.Some? {
          break;
        }
        if r.Bytes? {
          consumed := consumed + |r.bytes|;
        }
      }
      DoneIs(calls, script0);
      if failure.None? && |produced0| <= limit { NothingLost(limit, observer, produced0, calls); }
      KeptIsData();
      KeptGrows(produced0, Taken(calls), limit);
      assert old(data) <= data by { DataIsKept(); }
    }

    lemma DataIsKept()
      requires Valid()
      ensures data == Kept(produced, limit)
    {
    }

    lemma DoneIs(calls: seq<Read>, script0: seq<Read>)
      requires script0 == calls + script
      ensures Done(script0) == calls
    {
    }

    lemma KeptIsData()
      requires Valid()
      ensures |data| <= |produced| && (|produced| <= limit <==> data == produced)
    {
    }
  }

  // ---------- when a drain ends ----------

  /** The bytes that reads take from the pipe. */
  function Taken(calls: seq<Read>): seq<byte> {
    if calls == [] then []
    else
      var last := calls[|calls| - 1];
      Taken(calls[..|calls| - 1]) + if last.Bytes? then last.bytes else []
  }

  ghost predicate Ended(calls: seq<Read>) { calls != [] && calls[|calls| - 1].End? }

  /** The observer accepts what is kept of these bytes. */
  predicate Accepts(limit: nat, observer: Option<seq<byte> -> bool>, bytes: seq<byte>) {
    observer.Some? ==> observer.value(Kept(bytes, limit))
  }

  /** After these reads there is another one: the last was interrupted or gave bytes that fit and
      are accepted, and the drain has not had its share. */
  ghost predicate GoesOn(limit: nat, observer: Option<seq<byte> -> bool>, produced: seq<byte>, calls: seq<Read>) {
    calls == []
    || (&& |Taken(calls)| < PER_CALL
        && match calls[|calls| - 1]
           case Interrupted => true
           case Bytes(_) => |produced + Taken(calls)| <= limit && Accepts(limit, observer, produced + Taken(calls))
           case _ => false)
  }

  /** Only the last of these reads may have ended the drain. */
  ghost predicate StopsFirst(limit: nat, observer: Option<seq<byte> -> bool>, produced: seq<byte>, calls: seq<Read>) {
    forall m :: 0 <= m < |calls| ==> GoesOn(limit, observer, produced, calls[..m])
  }

  /** What a drain reports after these reads. */
  ghost function Cause(limit: nat, observer: Option<seq<byte> -> bool>, produced: seq<byte>, calls: seq<Read>)
    : Option<Failure>
  {
    if calls == [] then None
    else
      match calls[|calls| - 1]
      case Error => Some(ReadFailed)
      case Bytes(_) => CauseOf(limit, observer, produced + Taken(calls))
      case _ => None
  }

  function CauseOf(limit: nat, observer: Option<seq<byte> -> bool>, bytes: seq<byte>): Option<Failure> {
    if !Accepts(limit, observer, bytes) then Some(EventInvalid)
    else if |bytes| > limit then Some(LimitReached)
    else None
  }

  /** Every failure has its own cause in the last read. */
  lemma CauseMeans(limit: nat, observer: Option<seq<byte> -> bool>, produced: seq<byte>, calls: seq<Read>)
    requires calls != []
    ensures var cause, last, all := Cause(limit, observer, produced, calls), calls[|calls| - 1], produced + Taken(calls);
            && (cause == Some(ReadFailed) <==> last == Error)
            && (cause == Some(EventInvalid) <==>
                  last.Bytes? && observer.Some? && !observer.value(if |all| <= limit then all else all[..limit]))
            && (cause == Some(LimitReached) <==>
                  last.Bytes? && |all| > limit && (observer.Some? ==> observer.value(all[..limit])))
            && cause != Some(NotClosed)
  {
  }

  lemma MoveOne(calls: seq<Read>, rest: seq<Read>)
    requires rest != []
    ensures calls + rest == (calls + [rest[0]]) + rest[1..]
  {
  }

  lemma NoCalls(limit: nat, observer: Option<seq<byte> -> bool>, produced: seq<byte>)
    ensures Taken([]) == [] && StopsFirst(limit, observer, produced, []) && !Ended([])
    ensures GoesOn(limit, observer, produced, []) && Cause(limit, observer, produced, []).None?
  {
  }

  lemma OneMoreRead(limit: nat, observer: Option<seq<byte> -> bool>, produced: seq<byte>, calls: seq<Read>, r: Read)
    requires StopsFirst(limit, observer, produced, calls) && GoesOn(limit, observer, produced, calls)
    requires |Taken(calls)| < PER_CALL
    ensures StopsFirst(limit, observer, produced, calls + [r])
    ensures produced + Taken(calls + [r]) == (produced + Taken(calls)) + if r.Bytes? then r.bytes else []
    ensures |Taken(calls + [r])| == |Taken(calls)| + if r.Bytes? then |r.bytes| else 0
    ensures Ended(calls + [r]) == r.End?
    ensures
      var cause, all := Cause(limit, observer, produced, calls + [r]), produced + Taken(calls + [r]);
      && cause == (match r
                   case Bytes(_) => CauseOf(limit, observer, all)
                   case Error => Some(ReadFailed)
                   case _ => None)
      && (GoesOn(limit, observer, produced, calls + [r]) <==>
            cause.None? && !r.End? && !r.Again? && |Taken(calls + [r])| < PER_CALL)
  {
    TakenMore(produced, calls, r);
    LastIs(calls, r);
    hide Taken, Accepts, CauseOf, StopsFirst;
    OneMoreStop(limit, observer, produced, calls, r);
    hide GoesOn;
    LastGoesOn(limit, observer, produced, calls + [r], r);
  }

  lemma LastIs(calls: seq<Read>, r: Read)
    ensures calls + [r] != [] && (calls + [r])[|calls + [r]| - 1] == r
  {
  }

  lemma TakenMore(produced: seq<byte>, calls: seq<Read>, r: Read)
    ensures produced + Taken(calls + [r]) == (produced + Taken(calls)) + if r.Bytes? then r.bytes else []
    ensures |Taken(calls + [r])| == |Taken(calls)| + if r.Bytes? then |r.bytes| else 0
  {
    assert (calls + [r])[..|calls + [r]| - 1] == calls && (calls + [r])[|calls|] == r;
    var last := if r.Bytes? then r.bytes else [];
    assert Taken(calls + [r]) == Taken(calls) + last;
    hide Taken;
  }

  lemma LastGoesOn(limit: nat, observer: Option<seq<byte> -> bool>, produced: seq<byte>, calls: seq<Read>, last: Read)
    requires calls != [] && calls[|calls| - 1] == last
    ensures GoesOn(limit, observer, produced, calls) <==>
              Cause(limit, observer, produced, calls).None? && !last.End? && !last.Again? && |Taken(calls)| < PER_CALL
  {
    hide Taken, Accepts;
  }

  lemma OneMoreStop(limit: nat, observer: Option<seq<byte> -> bool>, produced: seq<byte>, calls: seq<Read>, r: Read)
    requires StopsFirst(limit, observer, produced, calls) && GoesOn(limit, observer, produced, calls)
    ensures StopsFirst(limit, observer, produced, calls + [r])
  {
    hide GoesOn;
    forall m | 0 <= m < |calls + [r]| ensures GoesOn(limit, observer, produced, (calls + [r])[..m]) {
      if m < |calls| { assert (calls + [r])[..m] == calls[..m]; } else { assert (calls + [r])[..m] == calls; }
    }
  }

  /** The first limit bytes. */
  function Kept(produced: seq<byte>, limit: nat): seq<byte> {
    if |produced| <= limit then produced else produced[..limit]
  }

  lemma KeptGrows(a: seq<byte>, b: seq<byte>, limit: nat)
    ensures Kept(a, limit) <= Kept(a + b, limit)
  {
  }

  lemma KeepMore(produced: seq<byte>, bytes: seq<byte>, limit: nat)
    ensures
      var kept := Kept(produced, limit);
      var allowed := if |bytes| < limit - |kept| then |bytes| else if limit > |kept| then limit - |kept| else 0;
      && Kept(produced + bytes, limit) == kept + bytes[..allowed]
      && (bytes != [] ==> (allowed < |bytes| <==> |produced + bytes| > limit))
  {
  }

  lemma OneFewer(a: seq<Read>, b: seq<Read>)
    requires b != []
    ensures (a + b)[..|a + b| - 1] == a + b[..|b| - 1] && (a + b)[|a + b| - 1] == b[|b| - 1]
  {
  }

  lemma {:induction false} TakenConcat(a: seq<Read>, b: seq<Read>)
    ensures Taken(a + b) == Taken(a) + Taken(b)
    decreases |b|
  {
    if b == [] {
      assert a + b == a;
    } else {
      var n := |b| - 1;
      OneFewer(a, b);
      TakenConcat(a, b[..n]);
      var last := if b[n].Bytes? then b[n].bytes else [];
      assert Taken(a + b) == Taken(a + b[..n]) + last && Taken(b) == Taken(b[..n]) + last;
      hide Taken;
    }
  }

  /** Without a failure everything taken fits. */
  lemma {:induction false} NothingLost(limit: nat, observer: Option<seq<byte> -> bool>, produced: seq<byte>, calls: seq<Read>)
    requires |produced| <= limit && StopsFirst(limit, observer, produced, calls)
    requires Cause(limit, observer, produced, calls).None?
    ensures |produced + Taken(calls)| <= limit
    decreases |calls|
  {
    if calls != [] && !calls[|calls| - 1].Bytes? {
      var rest := calls[..|calls| - 1];
      assert GoesOn(limit, observer, produced, rest);
      forall m | 0 <= m < |rest| ensures GoesOn(limit, observer, produced, rest[..m]) { assert rest[..m] == calls[..m]; }
      NothingLost(limit, observer, produced, rest);
    }
  }

  // ---------- a pipe that is read to its end ----------

  /** Reads of bytes that fit and are accepted, whatever interrupts them. */
  ghost predicate Flows(limit: nat, observer: Option<seq<byte> -> bool>, produced: seq<byte>, calls: seq<Read>) {
    forall m :: 0 < m <= |calls| ==> Flowing(limit, observer, produced + Taken(calls[..m]), calls[m - 1])
  }

  predicate Flowing(limit: nat, observer: Option<seq<byte> -> bool>, bytes: seq<byte>, r: Read) {
    (r.Bytes? || r.Interrupted?) && |bytes| <= limit && Accepts(limit, observer, bytes)
  }

  /** Such reads, and then the end. */
  ghost predicate Completes(limit: nat, observer: Option<seq<byte> -> bool>, produced: seq<byte>, script: seq<Read>, k: nat) {
    k < |script| && script[k].End? && Flows(limit, observer, produced, script[..k])
  }

  /** A drain of such a pipe reads to the end, or its share of bytes and the rest is such a pipe. */
  lemma DrainFlows(limit: nat, observer: Option<seq<byte> -> bool>, produced: seq<byte>, calls: seq<Read>, rest: seq<Read>,
                   k: nat)
    requires Completes(limit, observer, produced, calls + rest, k) && StopsFirst(limit, observer, produced, calls)
    requires GoesOn(limit, observer, produced, calls) ==> rest == []
    ensures Cause(limit, observer, produced, calls).None? && |calls| <= k + 1
    ensures Ended(calls) <==> |calls| == k + 1
    ensures Ended(calls) ==> Taken(calls) == Taken((calls + rest)[..k])
    ensures !Ended(calls) ==>
              && |Taken(calls)| >= PER_CALL
              && Completes(limit, observer, produced + Taken(calls), rest, k - |calls|)
              && k - |calls| <= |rest|
              && Taken(calls) + Taken(rest[..k - |calls|]) == Taken((calls + rest)[..k])
  {
    var script, n := calls + rest, |calls|;
    if n > k { EndStops(limit, observer, produced, calls, k); }
    if n == k + 1 {
      assert calls[..k] == script[..k] && calls[k] == script[k];
    } else {
      assert script[..k] == calls + rest[..k - n] && script[..k][..n] == calls;
      if n > 0 { assert script[..k][n - 1] == calls[n - 1]; }
      assert rest[k - n] == script[k];
      RestFlows(limit, observer, produced, calls, rest[..k - n]);
      hide StopsFirst, Taken, Accepts;
    }
  }

  /** Nothing is read after the end. */
  lemma EndStops(limit: nat, observer: Option<seq<byte> -> bool>, produced: seq<byte>, calls: seq<Read>, k: nat)
    requires StopsFirst(limit, observer, produced, calls) && k < |calls| && calls[k].End?
    ensures |calls| == k + 1
  {
    assert calls[..k + 1][k].End?;
    assert !GoesOn(limit, observer, produced, calls[..k + 1]);
  }

  lemma RestFlows(limit: nat, observer: Option<seq<byte> -> bool>, produced: seq<byte>, calls: seq<Read>, rest: seq<Read>)
    requires Flows(limit, observer, produced, calls + rest)
    ensures Flows(limit, observer, produced + Taken(calls), rest) && Taken(calls) + Taken(rest) == Taken(calls + rest)
  {
    TakenConcat(calls, rest);
    hide Flowing, Taken;
    forall m | 0 < m <= |rest|
      ensures Flowing(limit, observer, (produced + Taken(calls)) + Taken(rest[..m]), rest[m - 1])
    {
      var n := |calls| + m;
      assert (calls + rest)[..n] == calls + rest[..m] && (calls + rest)[n - 1] == rest[m - 1];
      TakenConcat(calls, rest[..m]);
      assert (produced + Taken(calls)) + Taken(rest[..m]) == produced + Taken((calls + rest)[..n]);
      assert Flowing(limit, observer, produced + Taken((calls + rest)[..n]), (calls + rest)[n - 1]);
    }
  }

  /** Why a pipe made a drain fail. */
  ghost predicate Blames(failure: Failure, pipe: Pipe, script: seq<Read>)
    reads pipe
  {
    match failure
    case ReadFailed => Error in script
    case LimitReached => |pipe.produced| > pipe.limit
    case EventInvalid => pipe.observer.Some?
    case NotClosed => false
  }

  /** One drain of such a pipe. */
  method DrainOne(pipe: Pipe, ghost k: nat) returns (failure: Option<Failure>, ghost k': nat)
    requires pipe.Valid()
    modifies pipe
    ensures pipe.Valid() && old(pipe.data) <= pipe.data
    ensures failure.None? && |old(pipe.produced)| <= pipe.limit ==> |pipe.produced| <= pipe.limit
    ensures old(pipe.Whole(k)) ==>
              && failure.None? && pipe.Whole(k') && pipe.All(k') == old(pipe.All(k))
              && (pipe.isOpen ==> |pipe.data| > |old(pipe.data)|)
    ensures failure.Some? ==> Blames(failure.value, pipe, old(pipe.script))
    ensures forall r :: r in pipe.script ==> r in old(pipe.script)
  {
    hide Taken, Cause, Completes, StopsFirst, GoesOn, Kept, Accepts, Pipe.Valid;
    ghost var script, produced, open := pipe.script, pipe.produced, pipe.isOpen;
    ghost var whole := pipe.Whole(k);
    pipe.KeptIsData();
    failure := pipe.Drain();
    pipe.KeptIsData();
    ghost var calls := pipe.Done(script);
    k' := if k >= |calls| then k - |calls| else 0;
    PartsOf(calls, pipe.script);
    if open && calls != [] { CauseMeans(pipe.limit, pipe.observer, produced, calls); }
    if whole && open {
      DrainFlows(pipe.limit, pipe.observer, produced, calls, pipe.script, k);
      if pipe.isOpen { InThree(produced, Taken(calls), Taken(pipe.script[..k'])); }
    }
    NoCause(pipe.limit, pipe.observer, produced);
  }

  lemma InThree(a: seq<byte>, b: seq<byte>, c: seq<byte>)
    ensures (a + b) + c == a + (b + c)
  {
  }

  lemma NoCause(limit: nat, observer: Option<seq<byte> -> bool>, produced: seq<byte>)
    ensures Cause(limit, observer, produced, []).None?
  {
  }

  lemma PartsOf(calls: seq<Read>, rest: seq<Read>)
    ensures forall r :: r in calls || r in rest <==> r in calls + rest
    ensures calls != [] ==> calls[|calls| - 1] in calls
  {
  }

  /** After the group is gone the pipes may still hold buffered output. The loop ends because each
      round that does not end it keeps at least one more byte, and what is kept is capped. Pipes that
      hold their whole output, within the limit and accepted, are read to the end: j and k are the
      numbers of reads before the end, if there are such. */
  method DrainToEnd(out: Pipe, err: Pipe, earlier: Option<Failure>, ghost j: nat, ghost k: nat)
    returns (failure: Option<Failure>)
    requires out != err && out.Valid() && err.Valid()
    requires earlier.None? ==> |out.produced| <= out.limit && |err.produced| <= err.limit
    modifies out, err
    ensures out.Valid() && err.Valid()
    ensures old(out.data) <= out.data && old(err.data) <= err.data
    ensures failure.None? ==> !out.isOpen && !err.isOpen && out.data == out.produced && err.data == err.produced
    ensures earlier.Some? ==> failure == earlier
    // A new failure is one of a drain, or an open pipe.
    ensures earlier.None? && failure.Some? ==>
              if failure == Some(NotClosed) then out.isOpen || err.isOpen
              else Blames(failure.value, out, old(out.script)) || Blames(failure.value, err, old(err.script))
    ensures earlier.None? && old(out.Whole(j)) && old(err.Whole(k)) ==>
              failure.None? && out.data == old(out.All(j)) && err.data == old(err.All(k))
  {
    failure := earlier;
    ghost var j', k' := j, k;
    while out.isOpen || err.isOpen
      invariant out.Valid() && err.Valid()
      invariant old(out.data) <= out.data && old(err.data) <= err.data
      invariant failure == earlier
      invariant (forall r :: r in out.script ==> r in old(out.script)) && (forall r :: r in err.script ==> r in old(err.script))
      invariant failure.None? ==> |out.produced| <= out.limit && |err.produced| <= err.limit
      invariant earlier.None? && old(out.Whole(j)) && old(err.Whole(k)) ==>
                  && out.Whole(j') && out.All(j') == old(out.All(j))
                  && err.Whole(k') && err.All(k') == old(err.All(k))
      decreases out.limit + err.limit - |out.data| - |err.data|, if out.isOpen || err.isOpen then 1 else 0
    {
      var before := |out.data| + |err.data|;
      var e;
      e, j' := DrainOne(out, j');
      if failure.None? {
        failure := e;
      }
      e, k' := DrainOne(err, k');
      if failure.None? {
        failure := e;
      }
      if failure.Some? {
        break;
      }
      if (out.isOpen || err.isOpen) && |out.data| + |err.data| == before {
        failure := Some(NotClosed);
        break;
      }
    }
  }
}
