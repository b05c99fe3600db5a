/**
 Waiting for dropped data: the provider's callback, cancellation and the waiting caller race for one
 continuation. A lock makes each step atomic; what follows after the lock is released is an action
 of its own.
 */
module PendingRead {
  import opened Wrappers

  type Data = seq<int>

  datatype Outcome = Success(data: Data) | Failure | Cancelled

  /** What a step leaves to be done without the lock. */
  datatype Action = Resume(outcome: Outcome) | CancelProgress

  /** The protected fields. waiting: a continuation is stored. progress: a progress is stored. */
  datatype Fields = Fields(waiting: bool, progress: bool, result: Option<Outcome>, cancelled: bool)

  function Fresh(): Fields { Fields(false, false, None, false) }

  function Install(f: Fields): (Fields, seq<Action>) {
    match f.result
    case Some(outcome) => (f, [Resume(outcome)])
    case None => (f.(waiting := true), [])
  }

  function Attach(f: Fields): (Fields, seq<Action>) {
    (if f.result.None? then f.(progress := true) else f, if f.cancelled then [CancelProgress] else [])
  }

  function Complete(f: Fields, outcome: Outcome): (Fields, seq<Action>) {
    if f.result.Some? then (f, [])
    else (f.(result := Some(outcome), waiting := false, progress := false),
          if f.waiting then [Resume(outcome)] else [])
  }

  function Cancel(f: Fields): (Fields, seq<Action>) {
    if f.result.Some? then (f, [])
    else (Fields(false, false, Some(Cancelled), true),
          (if f.waiting then [Resume(Cancelled)] else []) + (if f.progress then [CancelProgress] else []))
  }

  // ---------- one read ----------

  /** installed: the caller waits or was answered at once. started: the provider was asked, because
      the continuation was stored. due: actions not yet done; done: those that were. */
  datatype Read = Read(fields: Fields, installed: bool, started: bool, attached: bool,
                       due: seq<Action>, done: seq<Action>)

  datatype Step =
    | DoInstall
    | DoAttach
    | DoComplete(outcome: Outcome)
    | DoCancel
    | Perform(i: nat)

  function Apply(r: Read, s: Step): Read {
    match s
    case DoInstall =>
      if r.installed then r
      else
        var (fields, actions) := Install(r.fields);
        r.(fields := fields, installed := true, started := actions == [], due := r.due + actions)
    case DoAttach =>
      if !r.started || r.attached then r
      else
        var (fields, actions) := Attach(r.fields);
        r.(fields := fields, attached := true, due := r.due + actions)
    case DoComplete(outcome) =>
      if !r.started || outcome.Cancelled? then r
      else
        var (fields, actions) := Complete(r.fields, outcome);
        r.(fields := fields, due := r.due + actions)
    case DoCancel =>
      var (fields, actions) := Cancel(r.fields);
      r.(fields := fields, due := r.due + actions)
    case Perform(i) =>
      if i >= |r.due| then r
      else r.(due := r.due[..i] + r.due[i + 1..], done := r.done + [r.due[i]])
  }

  function Run(r: Read, steps: seq<Step>): Read
    decreases |steps|
  {
    if steps == [] then r else Run(Apply(r, steps[0]), steps[1..])
  }

  function NewRead(): Read { Read(Fresh(), false, false, false, [], []) }

  /** The outcome that a step offers in a state. */
  function Offered(r: Read, s: Step): Option<Outcome> {
    if s.DoCancel? then Some(Cancelled)
    else if s.DoComplete? && r.started && !s.outcome.Cancelled? then Some(s.outcome)
    else None
  }

  /** The first outcome offered in a run. */
  function First(r: Read, steps: seq<Step>): Option<Outcome>
    decreases |steps|
  {
    if steps == [] then None
    else if Offered(r, steps[0]).Some? then Offered(r, steps[0])
    else First(Apply(r, steps[0]), steps[1..])
  }

  function Resumes(actions: seq<Action>): nat {
    if actions == [] then 0 else (if actions[0].Resume? then 1 else 0) + Resumes(actions[1..])
  }

  /** A waiting caller is resumed once, with the outcome, as soon as there is one; a progress that was
      attached is cancelled if cancellation was first. */
  ghost predicate Inv(r: Read) {
    && (r.started ==> r.installed) && (r.attached ==> r.started)
    && (r.fields.cancelled <==> r.fields.result == Some(Cancelled))
    && r.fields.waiting == (r.installed && r.fields.result.None?)
    && r.fields.progress == (r.attached && r.fields.result.None?)
    && Resumes(r.due + r.done) == (if r.installed && r.fields.result.Some? then 1 else 0)
    && (forall a :: a in r.due + r.done && a.Resume? ==> r.fields.result == Some(a.outcome))
    && (CancelProgress in r.due + r.done <==> r.attached && r.fields.cancelled)
  }

  lemma {:induction false} ResumesOfConcat(a: seq<Action>, b: seq<Action>)
    ensures Resumes(a + b) == Resumes(a) + Resumes(b)
  {
    if a == [] {
      assert a + b == b;
    } else {
      assert (a + b)[1..] == a[1..] + b;
      ResumesOfConcat(a[1..], b);
    }
  }

  /** New actions join those that are due. */
  lemma Joining(due: seq<Action>, done: seq<Action>, actions: seq<Action>)
    ensures Resumes(due + actions + done) == Resumes(due + done) + Resumes(actions)
    ensures forall a :: a in due + actions + done <==> a in due + done || a in actions
  {
    ResumesOfConcat(due + actions, done);
    ResumesOfConcat(due, actions);
    ResumesOfConcat(due, done);
  }

  lemma Performing(due: seq<Action>, done: seq<Action>, i: nat)
    requires i < |due|
    ensures var due', done' := due[..i] + due[i + 1..], done + [due[i]];
            && Resumes(due' + done') == Resumes(due + done)
            && forall a :: a in due' + done' <==> a in due + done
  {
    var rest := due[i + 1..];
    assert due == due[..i] + ([due[i]] + rest);
    ResumesOfConcat(due[..i], [due[i]] + rest);
    ResumesOfConcat([due[i]], rest);
    ResumesOfConcat(due[..i], rest);
    ResumesOfConcat(due[..i] + rest, done + [due[i]]);
    ResumesOfConcat(done, [due[i]]);
    ResumesOfConcat(due, done);
  }

  lemma TaskKeepsInv(r: Read, s: Step)
    requires Inv(r) && (s.DoInstall? || s.DoAttach?)
    ensures Inv(Apply(r, s)) && Apply(r, s).fields.result == r.fields.result
  {
    Joining(r.due, r.done, if s.DoInstall? then Install(r.fields).1 else Attach(r.fields).1);
  }

  lemma CompleteKeepsInv(r: Read, outcome: Outcome)
    requires Inv(r) && r.started && !outcome.Cancelled?
    ensures Inv(Apply(r, DoComplete(outcome)))
  {
    var (fields, actions) := Complete(r.fields, outcome);
    assert Resumes(actions) == if r.installed && r.fields.result.None? then 1 else 0;
    Joining(r.due, r.done, actions);
    hide Resumes;
  }

  lemma CancelActions(f: Fields)
    ensures var actions := Cancel(f).1;
            && Resumes(actions) == (if f.result.None? && f.waiting then 1 else 0)
            && (CancelProgress in actions <==> f.result.None? && f.progress)
            && forall a :: a in actions && a.Resume? ==> a.outcome == Cancelled
  {
    if f.result.None? {
      var resume, cancel := if f.waiting then [Resume(Cancelled)] else [], if f.progress then [CancelProgress] else [];
      ResumesOfConcat(resume, cancel);
      assert Resumes(cancel) == 0;
    }
  }

  lemma CancelKeepsInv(r: Read)
    requires Inv(r)
    ensures Inv(Apply(r, DoCancel))
  {
    hide Resumes;
    CancelActions(r.fields);
    if r.fields.result.None? {
      assert forall a :: a in r.due + r.done ==> !a.Resume?;
      Joining(r.due, r.done, Cancel(r.fields).1);
    } else {
      assert r.due + [] == r.due;
    }
  }

  lemma StepKeepsInv(r: Read, s: Step)
    requires Inv(r)
    ensures Inv(Apply(r, s))
    ensures Apply(r, s).fields.result == if r.fields.result.Some? then r.fields.result else Offered(r, s)
  {
    if s.DoInstall? || s.DoAttach? {
      TaskKeepsInv(r, s);
    } else if s.Perform? {
      if s.i < |r.due| { Performing(r.due, r.done, s.i); }
    } else if s.DoCancel? {
      CancelKeepsInv(r);
    } else if r.started && !s.outcome.Cancelled? {
      CompleteKeepsInv(r, s.outcome);
    }
    hide Install, Attach, Resumes;
  }

  lemma {:induction false} RunKeepsInv(r: Read, steps: seq<Step>)
    requires Inv(r)
    ensures Inv(Run(r, steps))
    ensures Run(r, steps).fields.result == if r.fields.result.Some? then r.fields.result else First(r, steps)
    decreases |steps|
  {
    if steps != [] {
      StepKeepsInv(r, steps[0]);
      hide Inv, Apply;
      RunKeepsInv(Apply(r, steps[0]), steps[1..]);
    }
  }

  /** In every interleaving: a caller is never resumed twice; once it waits and an outcome exists, it
      is resumed exactly once, with the first outcome; and when cancellation came first, an attached
      progress is cancelled. Nothing else is ever done. */
  lemma ResumedExactlyOnce(steps: seq<Step>)
    ensures var r := Run(NewRead(), steps);
            && Resumes(r.done) <= 1
            && r.fields.result == First(NewRead(), steps)
            && (forall a :: a in r.done && a.Resume? ==> First(NewRead(), steps) == Some(a.outcome))
            && (r.due == [] && r.installed && First(NewRead(), steps).Some? ==> Resumes(r.done) == 1)
            && (r.due == [] && r.attached && First(NewRead(), steps) == Some(Cancelled) ==> CancelProgress in r.done)
            && (CancelProgress in r.done ==> First(NewRead(), steps) == Some(Cancelled))
  {
    var r := Run(NewRead(), steps);
    assert Inv(NewRead());
    RunKeepsInv(NewRead(), steps);
    ResumesOfConcat(r.due, r.done);
    hide Run, First, Resumes;
    assert forall a :: a in r.done ==> a in r.due + r.done;
    assert r.due == [] ==> r.due + r.done == r.done;
  }

  // ---------- the class ----------

  class Pending {
    var waiting: bool
    var progress: bool
    var result: Option<Outcome>
    var cancelled: bool

    function State(): Fields
      reads this
    {
      Fields(waiting, progress, result, cancelled)
    }

    constructor ()
      ensures State() == Fresh()
    {
      waiting, progress, result, cancelled := false, false, None, false;
    }

    method InstallContinuation() returns (stored: bool, actions: seq<Action>)
      modifies this
      ensures (State(), actions) == Install(old(State())) && stored == (actions == [])
    {
      if result.Some? { return false, [Resume(result.value)]; }
      waiting := true;
      return true, [];
    }

    method AttachProgress() returns (actions: seq<Action>)
      modifies this
      ensures (State(), actions) == Attach(old(State()))
    {
      var shouldCancel := cancelled;
      if result.None? { progress := true; }
      return if shouldCancel then [CancelProgress] else [];
    }

    method CompleteWith(outcome: Outcome) returns (actions: seq<Action>)
      modifies this
      ensures (State(), actions) == Complete(old(State()), outcome)
    {
      if result.Some? { return []; }
      result := Some(outcome);
      actions := if waiting then [Resume(outcome)] else [];
      waiting, progress := false, false;
    }

    method CancelWait() returns (actions: seq<Action>)
      modifies this
      ensures (State(), actions) == Cancel(old(State()))
    {
      if result.Some? { return []; }
      cancelled, result := true, Some(Cancelled);
      actions := (if waiting then [Resume(Cancelled)] else []) + (if progress then [CancelProgress] else []);
      waiting, progress := false, false;
    }
  }
}
