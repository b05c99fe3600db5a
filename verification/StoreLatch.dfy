/**
 The flags that keep two jobs from running at once: `busy` and `workerCleanupPending`. Operations
 suspend, so what they do before and after a suspension are separate steps.
 */
module StoreLatch {
  import opened Wrappers

  type Id = nat

  /** unclean: the jobs in state cleanup_pending. simple, generating: operations in flight.
      waiting: refreshes that passed their check and wait for the runner. */
  datatype Store = Store(busy: bool, pending: bool, readFailed: bool, unclean: set<Id>,
                         simple: nat, generating: nat, waiting: nat)

  /** How a generation ends. Uncleaned: the runner could not confirm that the worker is gone. */
  datatype End = Succeeded | Failed | Uncleaned

  datatype Step =
    | BeginSimple
    | EndSimple
    | BeginGenerate
    | EndGenerate(id: Id, end: End)
    | BeginRefresh
    | ResumeRefresh(idle: bool, resolved: set<Id>, completed: bool)
    | Restart(readable: bool, unclean: set<Id>)

  function Apply(s: Store, step: Step): Store {
    match step
    case BeginSimple => if s.busy then s else s.(busy := true, simple := s.simple + 1)
    case EndSimple => if s.simple == 0 then s else s.(busy := false, simple := s.simple - 1)
    case BeginGenerate => if s.busy then s else s.(busy := true, generating := s.generating + 1)
    case EndGenerate(id, end) =>
      if s.generating == 0 then s
      else
        var pending := s.pending || end.Uncleaned?;
        // A generation that fails while the flag is set leaves its job to be cleaned up.
        s.(pending := pending, unclean := if pending && !end.Succeeded? then s.unclean + {id} else s.unclean,
           busy := pending, generating := s.generating - 1)
    case BeginRefresh => if s.pending && !s.readFailed then s.(waiting := s.waiting + 1) else s
    case ResumeRefresh(idle, resolved, completed) =>
      if s.waiting == 0 then s
      else
        var t := s.(waiting := s.waiting - 1);
        if !idle then t
        else
          var unclean := s.unclean - resolved;
          if completed then t.(unclean := unclean, pending := unclean != {}, busy := unclean != {})
          else t.(unclean := unclean)
    case Restart(readable, unclean) =>
      var pending := !readable || unclean != {};
      Store(pending, pending, !readable, unclean, 0, 0, 0)
  }

  function Run(s: Store, steps: seq<Step>): Store
    decreases |steps|
  {
    if steps == [] then s else Run(Apply(s, steps[0]), steps[1..])
  }

  /** A job that waits for cleanup blocks the store; so does an operation; there is never more than
      one of them. */
  ghost predicate Latched(s: Store) {
    && (s.unclean != {} ==> s.pending)
    && (s.pending ==> s.busy && s.simple == 0 && s.generating == 0)
    && (s.busy ==> s.pending || s.simple + s.generating == 1)
    && (!s.busy ==> s.simple + s.generating == 0)
  }

  /** Every step but a resuming refresh keeps it. */
  lemma StepKeepsLatch(s: Store, step: Step)
    requires Latched(s) && !step.ResumeRefresh?
    ensures Latched(Apply(s, step))
  {
  }

  /** A resuming refresh that writes the flags keeps it exactly if no operation is in flight; the
      flags were checked before it was suspended and are not checked again. */
  lemma ResumeKeepsLatchExactly(s: Store, resolved: set<Id>)
    requires Latched(s) && s.waiting > 0
    ensures Latched(Apply(s, ResumeRefresh(true, resolved, true))) <==> s.simple + s.generating == 0
    ensures Latched(Apply(s, ResumeRefresh(false, resolved, true)))
    ensures Latched(Apply(s, ResumeRefresh(true, resolved, false)))
  {
  }

  /** A refresh begins only while another one waits for the runner. */
  predicate Overlaps(s: Store, step: Step) { step.BeginRefresh? && s.waiting > 0 }

  predicate NoOverlap(s: Store, steps: seq<Step>)
    decreases |steps|
  {
    steps == [] || (!Overlaps(s, steps[0]) && NoOverlap(Apply(s, steps[0]), steps[1..]))
  }

  /** One waiting refresh: what it checked still holds. */
  ghost predicate Alone(s: Store) { s.waiting <= 1 && (s.waiting == 1 ==> s.pending) }

  lemma {:induction false} LatchHolds(s: Store, steps: seq<Step>)
    requires Latched(s) && Alone(s) && NoOverlap(s, steps)
    ensures Latched(Run(s, steps)) && Alone(Run(s, steps))
    decreases |steps|
  {
    if steps != [] {
      var step := steps[0];
      if step.ResumeRefresh? && s.waiting > 0 {
        ResumeKeepsLatchExactly(s, step.resolved);
        assert Latched(Apply(s, step));
      } else if !step.ResumeRefresh? {
        StepKeepsLatch(s, step);
      }
      LatchHolds(Apply(s, step), steps[1..]);
    }
  }

  /** As long as refreshes do not overlap, over every run: a job that waits for cleanup implies that
      the store is busy, so that nothing else can start. */
  lemma CleanupImpliesBusy(s: Store, steps: seq<Step>)
    requires Latched(s) && Alone(s) && NoOverlap(s, steps)
    ensures var t := Run(s, steps);
            && (t.unclean != {} ==> t.busy)
            && t.simple + t.generating <= 1
            && (t.unclean != {} ==> Apply(t, BeginSimple) == t && Apply(t, BeginGenerate) == t)
  {
    hide *;
    LatchHolds(s, steps);
    LatchMeans(Run(s, steps));
  }

  /** Every run begins with a process that has read its history; it may be empty. */
  lemma BeginningIsLatched(s: Store, readable: bool, unclean: set<Id>)
    ensures Latched(Apply(s, Restart(readable, unclean))) && Alone(Apply(s, Restart(readable, unclean)))
  {
  }

  lemma LatchMeans(s: Store)
    requires Latched(s)
    ensures s.unclean != {} ==> s.busy
    ensures s.simple + s.generating <= 1
    ensures s.unclean != {} ==> Apply(s, BeginSimple) == s && Apply(s, BeginGenerate) == s
  {
  }

  /** Two refreshes that overlap defeat it: the second one reopens the store while a generation
      runs, another operation starts, the generation ends with a worker that is still there, and
      the other operation then releases the store. */
  lemma OverlapDefeatsLatch(s: Store, id: Id, other: Id) returns (steps: seq<Step>)
    requires s == Apply(s, Restart(true, {id}))
    ensures Run(s, steps).unclean == {other} && !Run(s, steps).busy
  {
    var refreshed := [BeginRefresh, BeginRefresh, ResumeRefresh(true, {id}, true)];
    var reopened := [BeginGenerate, ResumeRefresh(true, {}, true), BeginSimple];
    var ended := [EndGenerate(other, Uncleaned), EndSimple];
    steps := refreshed + (reopened + ended);
    var s1 := RunThree(s, refreshed[0], refreshed[1], refreshed[2], reopened + ended);
    assert s1.unclean == {} && s1.waiting == 1 && !s1.busy && !s1.pending && s1.generating == 0 && s1.simple == 0;
    var s2 := RunThree(s1, reopened[0], reopened[1], reopened[2], ended);
    assert s2.generating == 1 && s2.simple == 1 && s2.unclean == {} && !s2.pending;
    var s3 := Apply(s2, ended[0]);
    assert s3.unclean == {other} && s3.simple == 1;
    assert ended[1..] == [EndSimple] && [EndSimple][1..] == [];
    assert Run(s2, ended) == Run(s3, [EndSimple]) == Apply(s3, EndSimple);
  }

  lemma RunThree(s: Store, a: Step, b: Step, c: Step, rest: seq<Step>) returns (t: Store)
    ensures t == Apply(Apply(Apply(s, a), b), c) && Run(s, [a, b, c] + rest) == Run(t, rest)
  {
    t := Apply(Apply(Apply(s, a), b), c);
    hide Apply;
    assert ([a, b, c] + rest)[1..] == [b, c] + rest;
    assert ([b, c] + rest)[1..] == [c] + rest;
    assert ([c] + rest)[1..] == rest;
    assert Run(Apply(s, a), [b, c] + rest) == Run(Apply(Apply(s, a), b), [c] + rest);
  }

  // ---------- the class ----------

  class NativeJobStore {
    var busy: bool
    var workerCleanupPending: bool
    var readFailed: bool
    var unclean: set<Id>
    ghost var simple: nat
    ghost var generating: nat
    ghost var waiting: nat

    ghost function State(): Store
      reads this
    {
      Store(busy, workerCleanupPending, readFailed, unclean, simple, generating, waiting)
    }

    /** The history of an earlier process; unclean: the jobs whose worker may still be there. */
    constructor (readable: bool, unclean: set<Id>)
      ensures State() == Store(!readable || unclean != {}, !readable || unclean != {}, !readable, unclean, 0, 0, 0)
    {
      busy, workerCleanupPending, readFailed := !readable || unclean != {}, !readable || unclean != {}, !readable;
      this.unclean := unclean;
      simple, generating, waiting := 0, 0, 0;
    }

    method BeginLoad() returns (started: bool)
      modifies this
      ensures State() == Apply(old(State()), BeginSimple) && started == !old(busy)
    {
      if busy { return false; }
      busy, simple := true, simple + 1;
      return true;
    }

    method EndLoad()
      requires simple > 0
      modifies this
      ensures State() == Apply(old(State()), EndSimple)
    {
      busy, simple := false, simple - 1;
    }

    method BeginGeneration() returns (started: bool)
      modifies this
      ensures State() == Apply(old(State()), BeginGenerate) && started == !old(busy)
    {
      if busy { return false; }
      busy, generating := true, generating + 1;
      return true;
    }

    method EndGeneration(id: Id, end: End)
      requires generating > 0
      modifies this
      ensures State() == Apply(old(State()), EndGenerate(id, end))
    {
      if end.Uncleaned? { workerCleanupPending := true; }
      if !end.Succeeded? && workerCleanupPending { unclean := unclean + {id}; }
      busy, generating := workerCleanupPending, generating - 1;
    }

    method BeginRefreshing() returns (waits: bool)
      modifies this
      ensures State() == Apply(old(State()), BeginRefresh) && waits == (old(workerCleanupPending) && !old(readFailed))
    {
      if !workerCleanupPending || readFailed { return false; }
      waiting := waiting + 1;
      return true;
    }

    /** The runner has answered. gone: the worker of a job is seen to have exited. discards: its
        staging directory could be removed. */
    method EndRefreshing(idle: bool, gone: Id -> bool, discards: Id -> bool, saves: bool)
      returns (ghost resolved: set<Id>, completed: bool)
      requires waiting > 0
      modifies this
      ensures State() == Apply(old(State()), ResumeRefresh(idle, resolved, completed))
      ensures idle && completed ==> resolved == set id | id in old(unclean) && gone(id)
      ensures forall id :: id in resolved ==> id in old(unclean) && gone(id) && discards(id)
      ensures completed <==> !idle || (saves && forall id :: id in old(unclean) && gone(id) ==> discards(id))
    {
      waiting := waiting - 1;
      resolved, completed := {}, true;
      if !idle { return; }
      var left := unclean;
      while left != {}
        modifies this`unclean
        invariant left <= old(unclean) && resolved <= old(unclean) && unclean == old(unclean) - resolved
        invariant resolved == set id | id in old(unclean) - left && gone(id)
        invariant forall id :: id in resolved ==> discards(id)
      {
        var id :| id in left;
        left := left - {id};
        if gone(id) {
          if !discards(id) {
            completed := false;
            return;
          }
          unclean := unclean - {id};
          resolved := resolved + {id};
        }
      }
      completed := saves;
      if !saves { return; }
      workerCleanupPending := unclean != {};
      busy := workerCleanupPending;
    }
  }
}
