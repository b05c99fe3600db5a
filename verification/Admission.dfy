/**
 Launch admission and restart: a worker may start only after its identity is in a journal, and
 a restarted program decides from that journal alone whether the worker's group is gone.
 */
module Admission {
  import opened Words
  import opened Wrappers
  import opened ProcessTable

  /** The process start time is modelled by the serial number: no two processes share it. */
  datatype Identity = Identity(pid: nat, start: nat, boot: nat)

  datatype Observation = Present | Exited | Unknown

  /** The read-only restart check. failure: some system call failed for another reason. */
  function Observe(os: OS, boot: nat, journal: Option<Identity>, failure: bool): Observation {
    match journal
    case None => Unknown
    case Some(id) =>
      if id.boot != boot then Exited
      else if failure then Unknown
      else if os.Live(id.pid) && os.procs[id.pid].serial == id.start then
        if os.procs[id.pid].group == id.pid then Present else Unknown
      else if os.GroupGone(id.pid) then Exited
      else Unknown
  }

  // ---------- the job, its worker and the store ----------

  /** Finalizing: the intent to publish the image is recorded. */
  datatype Status = Running | CleanupPending | Finalizing | Interrupted | Finished

  /** started: a launch was about to happen. exitConfirmed: the worker is known to be gone. */
  datatype Record = Record(started: bool, exitConfirmed: bool, status: Status) {
    predicate Terminal() { status.Interrupted? || status.Finished? }
  }

  datatype Phase =
    | Down
    | Preparing
    | Launching              // started is saved
    | Spawned(pid: nat)
    | Journaled(pid: nat)
    | Supervising(pid: nat)  // the gate is closed
    | Monitoring             // the run is over, or the program was restarted

  /** gateByte: the admission byte is in the pipe. gateOpen: the program holds the writing end.
      admitted: the worker has read the byte. worker: identifier and serial of the leader.
      reaped: the runner has collected the leader's status. held: the runner retains an unclean
      child. */
  datatype World = World(os: OS, boot: nat, journal: Option<Identity>, phase: Phase,
                         saved: Record, job: Record, staging: bool, worker: Option<(nat, nat)>,
                         reaped: bool, held: bool, gateByte: bool, gateOpen: bool, admitted: bool)

  const WORKER := 1

  datatype Step =
    | SaveStarted
    | Spawn(pid: nat)
    | LaunchFails(saved: bool)
    | PersistJournal(completed: bool)    // not completed: an error after the rename
    | PersistFails
    | WriteByte
    | CloseGate                          // cancelled, or the byte could not be written
    | WorkerReads
    | Reap
    | RunEnds(saved: bool)
    | RunPending(saved: bool)
    | Finalize(saved: bool)
    | Finish(saved: bool)
    | Machine(e: EnvStep)
    | AppCrash
    | Reboot
    | Restart(failure: bool, discards: bool, saved: bool)
    | Refresh(failure: bool, discards: bool, saved: bool)

  /** The program died: its children belong to init, which reaps them. */
  function Orphan(os: OS): OS {
    os.(procs := map q | q in os.procs && !os.procs[q].zombie :: os.procs[q].(ours := false))
  }

  predicate LeaderLive(w: World) {
    && w.worker.Some? && w.os.Live(w.worker.value.0)
    && w.os.procs[w.worker.value.0].serial == w.worker.value.1
  }

  /** The runner's child is collected and its group is empty. */
  predicate Cleaned(w: World) {
    w.worker.Some? && w.reaped && w.os.GroupGone(w.worker.value.0)
  }

  function Update(w: World, job: Record, saved: bool): (r: World)
    ensures r.journal == w.journal
  {
    w.(job := job, saved := if saved then job else w.saved)
  }

  /** The worker is known to be gone: the staging directory goes too, then the job is marked. */
  function Confirm(w: World, discards: bool, saved: bool): (r: World)
    ensures r.journal == w.journal
  {
    var job := w.job.(exitConfirmed := true);
    if discards then Update(w.(staging := false), job.(status := Interrupted), saved) else w.(job := job)
  }

  /** Before the worker is admitted it only waits; workers do not leave their group. */
  predicate Possible(w: World, e: EnvStep) {
    && !e.Join?
    && (e.Fork? && e.parent in w.os.procs && w.os.procs[e.parent].family == WORKER ==> w.admitted)
  }

  function Apply(w: World, s: Step): World {
    match s
    case SaveStarted =>
      if w.phase.Preparing? then Update(w.(phase := Launching), w.job.(started := true), true) else w
    case LaunchFails(saved) =>
      if w.phase.Launching? then Update(w.(phase := Monitoring), w.job.(exitConfirmed := true), saved) else w
    case Machine(e) => if Possible(w, e) then w.(os := Env(w.os, e)) else w
    case AppCrash => w.(phase := Down, os := Orphan(w.os), held := false, gateOpen := false)
    case Reboot =>
      w.(phase := Down, boot := w.boot + 1, held := false, gateOpen := false, os := w.os.(procs := map[]))
    case Restart(_, _, _) => ApplyRestart(w, s)
    case Refresh(_, _, _) => ApplyRefresh(w, s)
    case _ => ApplyLaunch(w, s)
  }

  function ApplyLaunch(w: World, s: Step): World {
    match s
    case Spawn(pid) =>
      if w.phase.Launching? && w.os.Free(pid)
      then w.(phase := Spawned(pid), os := ProcessTable.Spawn(w.os, pid, WORKER),
              worker := Some((pid, w.os.serials)), gateOpen := true)
      else w
    case PersistJournal(completed) =>
      if w.phase.Spawned? && LeaderLive(w) && w.worker.value.0 == w.phase.pid && w.os.procs[w.phase.pid].ours
         && w.os.procs[w.phase.pid].group == w.phase.pid && w.journal.None?
      then w.(journal := Some(Identity(w.phase.pid, w.worker.value.1, w.boot)),
              phase := if completed then Journaled(w.phase.pid) else Supervising(w.phase.pid),
              gateOpen := completed)
      else w
    case PersistFails =>
      if w.phase.Spawned? then w.(phase := Supervising(w.phase.pid), gateOpen := false) else w
    case WriteByte =>
      if w.phase.Journaled? then w.(gateByte := true, gateOpen := false, phase := Supervising(w.phase.pid)) else w
    case CloseGate =>
      if w.phase.Journaled? then w.(gateOpen := false, phase := Supervising(w.phase.pid)) else w
    case WorkerReads =>
      if w.admitted || !LeaderLive(w) then w
      else if w.gateByte then w.(admitted := true)
      else if !w.gateOpen then w.(os := Env(w.os, Exit(w.worker.value.0)))
      else w
    case Reap =>
      if (w.phase.Supervising? || w.held) && w.worker.Some? && w.worker.value.0 in w.os.procs
         && w.os.procs[w.worker.value.0].ours && w.os.procs[w.worker.value.0].zombie
      then w.(os := w.os.(procs := w.os.procs - {w.worker.value.0}), reaped := true)
      else w
    case RunEnds(saved) =>
      if w.phase.Supervising? && Cleaned(w)
      then Update(w.(phase := Monitoring), w.job.(exitConfirmed := true), saved)
      else w
    case RunPending(saved) =>
      if w.phase.Supervising? && !Cleaned(w)
      then Update(w.(phase := Monitoring, held := true), w.job.(status := CleanupPending), saved)
      else w
    case Finalize(saved) =>
      if w.phase.Monitoring? && w.job.exitConfirmed && w.job.status.Running?
      then Update(w, w.job.(status := Finalizing), saved)
      else w
    case Finish(saved) =>
      if w.phase.Monitoring? && w.job.exitConfirmed && (w.job.status.Running? || w.job.status.Finalizing?)
      then Update(w.(staging := false), w.job.(status := Finished), saved)
      else w
    case _ => w
  }

  /** A new process reads the saved record and looks at every job that is not finished. */
  function ApplyRestart(w: World, s: Step): World
    requires s.Restart?
  {
    if w.phase != Down then w else Decide(w.(phase := Monitoring, job := w.saved), s)
  }

  /** What a restart makes of the record it has read. */
  function Decide(w: World, s: Step): World
    requires s.Restart?
  {
    if w.job.Terminal() then w
    else if !w.job.exitConfirmed && (w.job.started || w.journal.Some?)
            && Observe(w.os, w.boot, w.journal, s.failure) != Exited then
      Update(w, w.job.(status := CleanupPending), s.saved)
    else if w.job.status.Finalizing? then
      // The recovery of the image decides between success and failure, and may remove the directory.
      Update(w.(staging := w.staging && !s.discards), w.job.(exitConfirmed := true, status := Finished), s.saved)
    else if w.job.exitConfirmed then Update(w, w.job.(status := Interrupted), s.saved)
    else Confirm(w, s.discards, s.saved)
  }

  /** The user asks again: the runner must be idle and the journal must show an exit. */
  function ApplyRefresh(w: World, s: Step): World
    requires s.Refresh?
  {
    if !w.phase.Monitoring? || !w.job.status.CleanupPending? || (w.held && !Cleaned(w)) then w
    else if w.job.exitConfirmed || Observe(w.os, w.boot, w.journal, s.failure) == Exited then
      Confirm(w.(held := false), s.discards, s.saved)
    else w.(held := false)
  }

  function Run(w: World, steps: seq<Step>): World
    decreases |steps|
  {
    if steps == [] then w else Run(Apply(w, steps[0]), steps[1..])
  }

  /** No process of the worker is alive. */
  ghost predicate Gone(w: World) {
    forall q :: q in w.os.procs && w.os.procs[q].family == WORKER ==> w.os.procs[q].zombie
  }

  ghost predicate Initial(w: World) {
    && w.phase.Preparing? && w.journal.None? && w.worker.None?
    && !w.gateByte && !w.gateOpen && !w.admitted && !w.reaped && !w.held
    && w.job == w.saved == Record(false, false, Running) && w.staging
    && Vacant(w.os)
    && (forall q :: q in w.os.procs ==> w.os.procs[q].serial < w.os.serials)
  }

  predicate IsOver(job: Record) { job.status == Interrupted || job.status == Finished }

  /** The store acted as if the worker were gone. */
  ghost predicate Settled(w: World) {
    !w.staging || w.job.exitConfirmed || w.saved.exitConfirmed || w.job.Terminal() || w.saved.Terminal()
  }

  // ---------- what every step keeps ----------

  /** All worker processes are in the leader's group; the leader's serial marks it; only the
      leader is the program's child. */
  ghost predicate Family(w: World) {
    && (forall q :: q in w.os.procs ==> w.os.procs[q].serial < w.os.serials)
    && (forall q :: q in w.os.procs && w.os.procs[q].family == WORKER ==>
          w.worker.Some? && w.os.procs[q].group == w.worker.value.0)
    && (forall q :: q in w.os.procs && w.os.procs[q].zombie ==> w.os.procs[q].ours)
    && (forall q :: q in w.os.procs && w.os.procs[q].ours ==> w.worker.Some? && q == w.worker.value.0)
    && (forall q :: q in w.os.procs && w.worker.Some? && w.os.procs[q].serial == w.worker.value.1 ==>
          q == w.worker.value.0 && w.os.procs[q].family == WORKER)
    && (w.worker.Some? ==> w.worker.value.1 < w.os.serials)
  }

  ghost predicate Phases(w: World) {
    && (w.worker.Some? ==> w.saved.started && w.job.started)
    && (w.phase.Launching? ==> w.saved.started && w.job.started)
    && (w.phase.Preparing? || w.phase.Launching? ==> w.worker.None?)
    && (w.phase.Spawned? || w.phase.Journaled? || w.phase.Supervising? ==>
          w.worker.Some? && w.phase.pid == w.worker.value.0)
    && (w.phase.Spawned? ==> w.journal.None?)
    && (w.job.status.Finalizing? ==> w.job.exitConfirmed)
    && (w.saved.status.Finalizing? ==> w.saved.exitConfirmed)
  }

  /** The byte follows the journal, and the journal names the worker. */
  ghost predicate Named(w: World) {
    && (w.journal.Some? ==>
          w.worker == Some((w.journal.value.pid, w.journal.value.start)) && w.journal.value.boot <= w.boot)
    && (w.journal.Some? && w.journal.value.boot != w.boot ==> Gone(w))
    && (w.phase.Journaled? || w.gateByte ==> w.journal.Some?)
    && (w.admitted ==> w.gateByte)
  }

  ghost predicate Inv(w: World) {
    && Family(w) && Phases(w) && Named(w)
    && (Settled(w) ==> Gone(w) && !w.phase.Preparing? && !w.phase.Launching?)
  }

  lemma InitialInv(w: World)
    requires Initial(w)
    ensures Inv(w)
  {
  }

  /** An exit is observed only when no process of the worker is left, however identifiers were
      reused; the leader is seen as present only if it is the process that was launched. */
  lemma ObservationIsRight(w: World, failure: bool)
    requires Family(w) && Named(w)
    ensures Observe(w.os, w.boot, w.journal, failure) == Exited ==> Gone(w)
    ensures Observe(w.os, w.boot, w.journal, failure) == Present <==>
              w.journal.Some? && w.journal.value.boot == w.boot && !failure && LeaderLive(w)
              && w.os.procs[w.journal.value.pid].group == w.journal.value.pid
    ensures w.journal.Some? && Observe(w.os, w.boot, w.journal, false) != Exited ==>
              exists q :: q in w.os.procs && w.os.Live(q) && w.os.procs[q].group == w.journal.value.pid
  {
    if Observe(w.os, w.boot, w.journal, failure) == Exited && w.journal.value.boot == w.boot {
      assert w.os.GroupGone(w.journal.value.pid);
    }
    if Observe(w.os, w.boot, w.journal, false).Present? {
      assert w.os.Live(w.journal.value.pid);
    }
  }

  /** At most one process is added, with a new serial, and it is foreign or like a live one. */
  lemma NewcomerKeeps(w: World, e: EnvStep)
    requires Family(w) && (e.Fork? || e.ForeignSpawn?)
    ensures Family(w.(os := Env(w.os, e)))
    ensures Gone(w) ==> Gone(w.(os := Env(w.os, e)))
  {
  }

  /** What the machine does leaves the worker where it is: it creates no process of the worker's
      once they are all dead. */
  lemma MachineKeeps(w: World, e: EnvStep)
    requires Family(w) && !e.Join?
    ensures Family(w.(os := Env(w.os, e)))
    ensures Gone(w) ==> Gone(w.(os := Env(w.os, e)))
  {
    if e.Fork? || e.ForeignSpawn? {
      NewcomerKeeps(w, e);
      hide ProcessTable.Env, Family, Gone;
    }
  }

  lemma CleanedIsGone(w: World)
    requires Family(w) && Cleaned(w)
    ensures Gone(w)
  {
    assert w.os.GroupGone(w.worker.value.0);
  }

  lemma LaunchKeepsInv(w: World, s: Step)
    requires Inv(w) && (s.Spawn? || s.PersistJournal? || s.Reap?)
    ensures Inv(Apply(w, s))
  {
    hide ProcessTable.Env, Observe;
  }

  lemma GateKeepsInv(w: World, s: Step)
    requires Inv(w) && (s.PersistFails? || s.WriteByte? || s.CloseGate?)
    ensures Inv(Apply(w, s))
  {
    hide ProcessTable.Env, Observe;
  }

  lemma WorkerKeepsInv(w: World)
    requires Inv(w)
    ensures Inv(Apply(w, WorkerReads))
  {
    if w.worker.Some? { MachineKeeps(w, Exit(w.worker.value.0)); }
    hide ProcessTable.Env, Observe, Family;
  }

  /** Family and names do not depend on the job, and the job may only be settled when the worker is gone. */
  lemma JobKeepsFamily(w: World, w': World)
    requires Family(w) && Named(w) && w' == w.(job := w'.job, saved := w'.saved, staging := w'.staging)
    ensures Family(w') && Named(w') && (Gone(w) <==> Gone(w'))
  {
  }

  lemma JobKeepsInv(w: World, staging: bool, job: Record, saved: bool)
    requires Inv(w) && job.started == w.job.started && (job.status.Finalizing? ==> job.exitConfirmed)
    requires staging != w.staging || job.exitConfirmed || job.Terminal() ==> Gone(w) && w.phase.Monitoring?
    ensures Inv(Update(w.(staging := staging), job, saved))
  {
    var w' := Update(w.(staging := staging), job, saved);
    JobKeepsFamily(w, w');
    hide Family, Named, Gone;
  }

  /** A phase that is as good as over needs no more than this. */
  lemma MonitoringKeepsInv(w: World, held: bool)
    requires Inv(w) && (w.phase.Supervising? || w.phase.Monitoring?)
    ensures Inv(w.(phase := Monitoring, held := held)) && (Gone(w) <==> Gone(w.(phase := Monitoring, held := held)))
  {
  }

  lemma ConfirmKeepsInv(w: World, discards: bool, saved: bool)
    requires Inv(w) && Gone(w) && w.phase.Monitoring?
    ensures Inv(Confirm(w, discards, saved))
  {
    var job := w.job.(exitConfirmed := true);
    JobKeepsInv(w, false, job.(status := Interrupted), saved);
    JobKeepsInv(w, w.staging, job, false);
    hide Inv, Gone;
  }

  lemma PendingKeepsInv(w: World, saved: bool)
    requires Inv(w) && w.phase.Monitoring? && (w.job.exitConfirmed ==> Gone(w))
    ensures Inv(Update(w, w.job.(status := CleanupPending), saved))
  {
    JobKeepsInv(w, w.staging, w.job.(status := CleanupPending), saved);
    hide Inv, Gone;
  }

  lemma OverKeepsInv(w: World, discards: bool, saved: bool)
    requires Inv(w) && Gone(w) && w.phase.Monitoring?
    ensures Inv(Update(w.(staging := w.staging && !discards), w.job.(exitConfirmed := true, status := Finished), saved))
    ensures w.job.exitConfirmed ==> Inv(Update(w, w.job.(status := Interrupted), saved))
  {
    JobKeepsInv(w, w.staging && !discards, w.job.(exitConfirmed := true, status := Finished), saved);
    if w.job.exitConfirmed { JobKeepsInv(w, w.staging, w.job.(status := Interrupted), saved); }
    hide Inv, Gone;
  }

  /** The saved record becomes the job's. */
  lemma ReadBackKeepsInv(w: World)
    requires Inv(w) && w.phase.Down?
    ensures var w1 := w.(phase := Monitoring, job := w.saved);
            Inv(w1) && (Gone(w) <==> Gone(w1)) && (w1.job.exitConfirmed ==> Gone(w1))
            && (!w1.job.started && w1.journal.None? ==> Gone(w1))
  {
  }

  lemma RestartKeepsInv(w: World, s: Step)
    requires Inv(w) && s.Restart? && w.phase.Down?
    ensures Inv(Apply(w, s))
  {
    var w1 := w.(phase := Monitoring, job := w.saved);
    ReadBackKeepsInv(w);
    assert Family(w1) && Named(w1);
    hide Inv, Gone, Family, Named, Decide;
    DecideKeepsInv(w1, s);
  }

  lemma DecideKeepsInv(w: World, s: Step)
    requires Inv(w) && Family(w) && Named(w) && s.Restart? && w.phase.Monitoring?
    requires w.job.exitConfirmed || (!w.job.started && w.journal.None?) ==> Gone(w)
    ensures Inv(Decide(w, s))
  {
    hide Inv, Gone, Family, Named, Observe, Confirm, Update;
    ObservationIsRight(w, s.failure);
    if !w.job.exitConfirmed && (w.job.started || w.journal.Some?)
       && Observe(w.os, w.boot, w.journal, s.failure) != Exited {
      PendingKeepsInv(w, s.saved);
    } else {
      ConfirmKeepsInv(w, s.discards, s.saved);
      OverKeepsInv(w, s.discards, s.saved);
    }
  }

  lemma RefreshKeepsInv(w: World, s: Step)
    requires Inv(w) && s.Refresh? && w.phase.Monitoring?
    ensures Inv(Apply(w, s))
  {
    assert Family(w) && Named(w) && (w.job.exitConfirmed ==> Gone(w));
    hide Inv, Gone, Family, Named, Observe, Confirm, Cleaned;
    ObservationIsRight(w, s.failure);
    MonitoringKeepsInv(w, false);
    var w1 := w.(held := false);
    if Gone(w1) { ConfirmKeepsInv(w1, s.discards, s.saved); }
  }

  lemma StartKeepsInv(w: World, s: Step)
    requires Inv(w) && (s.SaveStarted? || s.LaunchFails?)
    ensures Inv(Apply(w, s))
  {
    hide ProcessTable.Env, Observe, Cleaned;
  }

  lemma RunEndsKeepsInv(w: World, saved: bool)
    requires Inv(w)
    ensures Inv(Apply(w, RunEnds(saved)))
  {
    if w.phase.Supervising? && Cleaned(w) {
      CleanedIsGone(w);
      MonitoringKeepsInv(w, w.held);
      hide Inv, Gone, Cleaned, Update;
      JobKeepsInv(w.(phase := Monitoring, held := w.held), w.staging, w.job.(exitConfirmed := true), saved);
    }
    hide Inv, Cleaned, Update;
  }

  lemma RunPendingKeepsInv(w: World, saved: bool)
    requires Inv(w)
    ensures Inv(Apply(w, RunPending(saved)))
  {
    if w.phase.Supervising? && !Cleaned(w) {
      MonitoringKeepsInv(w, true);
      assert w.job.exitConfirmed ==> Gone(w);
      hide Inv, Gone, Cleaned, Update;
      PendingKeepsInv(w.(phase := Monitoring, held := true), saved);
    }
    hide Inv, Cleaned, Update;
  }

  lemma FinishKeepsInv(w: World, s: Step)
    requires Inv(w) && (s.Finalize? || s.Finish?)
    ensures Inv(Apply(w, s))
  {
    assert w.job.exitConfirmed ==> Gone(w);
    hide Inv, Gone, Update;
    if w.phase.Monitoring? && w.job.exitConfirmed {
      if s.Finalize? {
        JobKeepsInv(w, w.staging, w.job.(status := Finalizing), s.saved);
        assert w.(staging := w.staging) == w;
      } else {
        JobKeepsInv(w, false, w.job.(status := Finished), s.saved);
      }
    }
  }

  lemma DeathKeepsInv(w: World, s: Step)
    requires Inv(w) && (s.AppCrash? || s.Reboot?)
    ensures Inv(Apply(w, s))
  {
    hide ProcessTable.Env, Observe;
  }

  lemma MachineKeepsInv(w: World, e: EnvStep)
    requires Inv(w)
    ensures Inv(Apply(w, Machine(e)))
  {
    if Possible(w, e) { MachineKeeps(w, e); }
    hide ProcessTable.Env, Observe, Family;
  }

  lemma StepKeepsInv(w: World, s: Step)
    requires Inv(w)
    ensures Inv(Apply(w, s))
  {
    hide Inv, ProcessTable.Env, ApplyLaunch;
    match s
    case Machine(e) => MachineKeepsInv(w, e);
    case AppCrash => DeathKeepsInv(w, s);
    case Reboot => DeathKeepsInv(w, s);
    case Restart(_, _, _) => if w.phase.Down? { RestartKeepsInv(w, s); }
    case Refresh(_, _, _) => if w.phase.Monitoring? { RefreshKeepsInv(w, s); }
    case RunEnds(saved) => RunEndsKeepsInv(w, saved);
    case RunPending(saved) => RunPendingKeepsInv(w, saved);
    case _ =>
      if s.SaveStarted? || s.LaunchFails? { StartKeepsInv(w, s); }
      else if s.Finalize? || s.Finish? { FinishKeepsInv(w, s); }
      else if s.Spawn? || s.PersistJournal? || s.Reap? { LaunchKeepsInv(w, s); }
      else if s.WorkerReads? { WorkerKeepsInv(w); }
      else { GateKeepsInv(w, s); }
  }

  // ---------- over whole runs ----------

  lemma {:induction false} RunKeepsInv(w: World, steps: seq<Step>)
    requires Inv(w)
    ensures Inv(Run(w, steps))
    decreases |steps|
  {
    if steps != [] {
      StepKeepsInv(w, steps[0]);
      RunKeepsInv(Apply(w, steps[0]), steps[1..]);
    }
  }

  /** Through every interleaving, crash and reboot: a worker that was admitted is the one its
      journal names, and that journal is never replaced. */
  lemma AdmittedIsJournaled(w: World, steps: seq<Step>)
    requires Initial(w)
    ensures var r := Run(w, steps);
            r.admitted ==> r.journal.Some? && r.worker == Some((r.journal.value.pid, r.journal.value.start))
  {
    InitialInv(w);
    RunKeepsInv(w, steps);
  }

  /** Through every interleaving, crash, reboot and reuse of identifiers: the staging directory is
      discarded and the job is declared over only when no process of its worker is alive. */
  lemma SettledOnlyWhenGone(w: World, steps: seq<Step>)
    requires Initial(w)
    ensures var r := Run(w, steps);
            !r.staging || IsOver(r.job) || IsOver(r.saved) ==> Gone(r)
  {
    InitialInv(w);
    RunKeepsInv(w, steps);
  }

  lemma LaunchKeepsJournal(w: World, s: Step)
    requires w.journal.Some?
    ensures ApplyLaunch(w, s).journal == w.journal
  {
    hide ProcessTable.Env, LeaderLive, Cleaned, ProcessTable.Spawn;
  }

  lemma DecideKeepsJournal(w: World, s: Step)
    requires s.Restart?
    ensures Decide(w, s).journal == w.journal
  {
    hide Observe, Update, Confirm;
  }

  lemma StepKeepsJournal(w: World, s: Step)
    requires w.journal.Some?
    ensures Apply(w, s).journal == w.journal
  {
    hide ProcessTable.Env, Observe, LeaderLive, Cleaned, Possible, Orphan, ApplyLaunch, Decide;
    match s
    case SaveStarted =>
    case LaunchFails(_) =>
    case Machine(_) =>
    case AppCrash =>
    case Reboot =>
    case Restart(_, _, _) => assert ApplyRestart(w, s).journal == w.journal by { DecideKeepsJournal(w.(phase := Monitoring, job := w.saved), s); }
    case Refresh(_, _, _) =>
    case _ => LaunchKeepsJournal(w, s);
  }

  /** Through every run: when the intent to publish is saved, the exit of the worker is saved with
      it, the worker is gone, and every restart leaves the job to the recovery of its image. */
  lemma FinalizingIsRecovered(w: World, steps: seq<Step>, restart: Step)
    requires Initial(w) && restart.Restart?
    ensures var r := Run(w, steps);
            r.saved.status.Finalizing? ==>
              && r.saved.exitConfirmed && Gone(r)
              && (r.phase.Down? ==> Apply(r, restart).job.status.Finished?)
  {
    InitialInv(w);
    RunKeepsInv(w, steps);
    hide Run;
    RestartFinishes(Run(w, steps), restart);
  }

  lemma RestartFinishes(w: World, restart: Step)
    requires Phases(w) && restart.Restart?
    ensures w.saved.status.Finalizing? && w.phase.Down? ==> Apply(w, restart).job.status.Finished?
  {
    hide Observe;
  }

  /** A journal is written once and then stays. */
  lemma {:induction false} JournalIsImmutable(w: World, steps: seq<Step>)
    requires w.journal.Some?
    ensures Run(w, steps).journal == w.journal
    decreases |steps|
  {
    hide Apply;
    if steps != [] {
      StepKeepsJournal(w, steps[0]);
      JournalIsImmutable(Apply(w, steps[0]), steps[1..]);
    }
  }

  /** The program died with the launch recorded and no journal: then it never learns of an exit. */
  ghost predicate Stuck(w: World) {
    && (w.phase.Down? || w.phase.Monitoring?) && w.journal.None? && w.staging && !w.held
    && w.saved.started && !w.saved.exitConfirmed && !w.saved.Terminal()
    && (w.phase.Monitoring? ==> w.job.started && !w.job.exitConfirmed && w.job.status.CleanupPending?)
  }

  lemma StepKeepsStuck(w: World, s: Step)
    requires Stuck(w)
    ensures Stuck(Apply(w, s))
  {
    hide ProcessTable.Env, LeaderLive, Cleaned, Possible, Orphan;
  }

  /** Missing journals are not proof of exit: such a job keeps its staging directory and stays
      unfinished through every later restart, reboot and refresh. */
  lemma {:induction false} MissingJournalIsNeverSettled(w: World, steps: seq<Step>)
    requires Stuck(w)
    ensures Stuck(Run(w, steps))
    decreases |steps|
  {
    hide Apply, Stuck;
    if steps != [] {
      StepKeepsStuck(w, steps[0]);
      MissingJournalIsNeverSettled(Apply(w, steps[0]), steps[1..]);
    }
  }

  /** A program that dies between the launch and the journal leaves such a job for good. */
  lemma LaunchWithoutJournalIsNeverSettled(w: World, pid: nat, steps: seq<Step>)
    requires Initial(w) && w.os.Free(pid)
    ensures Stuck(Run(w, [SaveStarted, Spawn(pid), AppCrash] + steps))
    ensures Run(w, [SaveStarted, Spawn(pid), AppCrash]).worker == Some((pid, w.os.serials))
  {
    var first := [SaveStarted, Spawn(pid), AppCrash];
    var w1 := Apply(w, SaveStarted);
    var w2 := Apply(w1, Spawn(pid));
    var w3 := Apply(w2, AppCrash);
    assert w3.worker == Some((pid, w.os.serials)) && Stuck(w3);
    hide Apply, Stuck;
    forall rest: seq<Step> ensures Run(w, first + rest) == Run(w3, rest) {
      assert (first + rest)[1..] == [Spawn(pid), AppCrash] + rest;
      assert ([Spawn(pid), AppCrash] + rest)[1..] == [AppCrash] + rest;
      assert ([AppCrash] + rest)[1..] == rest;
      assert Run(w1, [Spawn(pid), AppCrash] + rest) == Run(w2, [AppCrash] + rest) == Run(w3, rest);
    }
    assert first + [] == first;
    MissingJournalIsNeverSettled(w3, steps);
  }

  /** With a journal and no system failure the next restart settles the job as soon as the group
      is empty. Only a directory that was kept after a saved exit outlives it. */
  lemma RestartSettles(w: World)
    requires Inv(w) && w.phase.Down? && w.journal.Some? && !w.saved.Terminal()
    requires w.os.GroupGone(w.journal.value.pid)
    ensures var r := Apply(w, Restart(false, true, true));
            && r.saved == r.job && r.job.exitConfirmed
            && r.job.status == (if w.saved.status.Finalizing? then Finished else Interrupted)
            && r.staging == (w.staging && w.saved.exitConfirmed && !w.saved.status.Finalizing?)
  {
    assert w.saved.status.Finalizing? ==> w.saved.exitConfirmed;
    hide Inv;
    assert Observe(w.os, w.boot, w.journal, false) == Exited;
    hide Observe;
  }

  /** So does a refresh of the running program, once its runner has collected the child that it held. */
  lemma RefreshSettles(w: World)
    requires Inv(w) && w.phase.Monitoring? && w.job.status.CleanupPending? && w.journal.Some?
    requires w.os.GroupGone(w.journal.value.pid) && (w.held ==> w.reaped)
    ensures var r := Apply(w, Refresh(false, true, true));
            && r.saved == r.job == w.job.(exitConfirmed := true, status := Interrupted)
            && !r.staging && !r.held && r.os == w.os
  {
    assert w.worker.Some? && w.worker.value.0 == w.journal.value.pid;
    hide Inv;
    assert Observe(w.os, w.boot, w.journal, false) == Exited;
    hide Observe;
  }

  /** A job that is over is left alone. */
  lemma OverStaysOver(w: World, restart: Step)
    requires restart.Restart? && w.phase.Down? && IsOver(w.saved)
    ensures var r := Apply(w, restart); r.job == r.saved == w.saved && r.staging == w.staging
  {
  }

  /** A death forgets what only the program knew, leaves no child of its own behind, and closes the
      gate; a reboot ends every process and cannot be mistaken for the same boot. */
  lemma DeathForgets(w: World)
    ensures var c, b := Apply(w, AppCrash), Apply(w, Reboot);
            && c.phase.Down? && !c.held && !c.gateOpen && b.phase.Down? && !b.held && !b.gateOpen
            && (forall q :: q in c.os.procs <==> w.os.Live(q))
            && (forall q :: q in c.os.procs ==> c.os.procs[q] == w.os.procs[q].(ours := false))
            && b.os.procs == map[] && b.boot > w.boot && c.boot == w.boot
            && c.saved == b.saved == w.saved && c.journal == b.journal == w.journal && c.staging == b.staging == w.staging
  {
  }

  lemma RunOne(w: World, s: Step, rest: seq<Step>)
    ensures Run(w, [s] + rest) == Run(Apply(w, s), rest)
  {
    hide Apply;
    assert ([s] + rest)[1..] == rest;
  }

  lemma RunFive(w: World, a: Step, b: Step, c: Step, d: Step, e: Step)
    ensures Run(w, [a, b, c, d, e]) == Apply(Apply(Apply(Apply(Apply(w, a), b), c), d), e)
  {
    assert [a, b, c, d, e] == [a] + [b, c, d, e] && [b, c, d, e] == [b] + [c, d, e];
    assert [c, d, e] == [c] + [d, e] && [d, e] == [d] + [e] && [e] == [e] + [];
    hide Apply, Run;
    var w1, w2, w3, w4 := Apply(w, a), Apply(Apply(w, a), b), Apply(Apply(Apply(w, a), b), c), Apply(Apply(Apply(Apply(w, a), b), c), d);
    RunOne(w, a, [b, c, d, e]);
    RunOne(w1, b, [c, d, e]);
    RunOne(w2, c, [d, e]);
    RunOne(w3, d, [e]);
    RunOne(w4, e, []);
    assert Run(Apply(w4, e), []) == Apply(w4, e) by { RunNone(Apply(w4, e)); }
  }

  lemma RunNone(w: World)
    ensures Run(w, []) == w
  {
  }

  /** Nothing in the way: the launch is recorded, and the worker is journaled and admitted. */
  lemma OrdinaryLaunch(w: World, pid: nat)
    requires Initial(w) && w.os.Free(pid)
    ensures Run(w, [SaveStarted, Spawn(pid), PersistJournal(true), WriteByte, WorkerReads])
         == w.(os := ProcessTable.Spawn(w.os, pid, WORKER), phase := Supervising(pid),
               journal := Some(Identity(pid, w.os.serials, w.boot)), worker := Some((pid, w.os.serials)),
               job := Record(true, false, Running), saved := Record(true, false, Running), gateByte := true, admitted := true)
  {
    RunFive(w, SaveStarted, Spawn(pid), PersistJournal(true), WriteByte, WorkerReads);
    var w2 := Apply(Apply(w, SaveStarted), Spawn(pid));
    assert LeaderLive(w2) && w2.phase == Spawned(pid) && w2.journal.None? && w2.os.procs[pid].group == pid;
    hide Run, ProcessTable.Env, Observe;
  }

  /** Then it exits and is collected, and its image is published. */
  lemma OrdinaryEnd(w: World, pid: nat)
    requires w.phase == Supervising(pid) && w.os.Live(pid) && w.os.procs[pid].ours && w.worker.Some? && w.worker.value.0 == pid
    requires w.job.status == Running && forall q :: q in w.os.procs && q != pid ==> w.os.procs[q].group != pid
    ensures Run(w, [Machine(Exit(pid)), Reap, RunEnds(true), Finalize(true), Finish(true)])
         == w.(os := w.os.(procs := w.os.procs - {pid}), phase := Monitoring, reaped := true, staging := false,
               job := w.job.(exitConfirmed := true, status := Finished), saved := w.job.(exitConfirmed := true, status := Finished))
  {
    RunFive(w, Machine(Exit(pid)), Reap, RunEnds(true), Finalize(true), Finish(true));
    hide Run, ProcessTable.Env, Observe, Cleaned, LeaderLive, Possible;
    ExitIsReaped(w, pid);
    PublishAfterwards(Apply(Apply(w, Machine(Exit(pid))), Reap), pid);
    hide Apply;
  }

  lemma ExitIsReaped(w: World, pid: nat)
    requires w.phase == Supervising(pid) && w.os.Live(pid) && w.os.procs[pid].ours && w.worker.Some? && w.worker.value.0 == pid
    requires forall q :: q in w.os.procs && q != pid ==> w.os.procs[q].group != pid
    ensures var w2 := Apply(Apply(w, Machine(Exit(pid))), Reap);
            w2 == w.(os := w.os.(procs := w.os.procs - {pid}), reaped := true) && Cleaned(w2)
  {
    var w1 := Apply(w, Machine(Exit(pid)));
    assert w1 == w.(os := w.os.(procs := w.os.procs[pid := w.os.procs[pid].(zombie := true)]));
    assert w1.os.procs - {pid} == w.os.procs - {pid};
    hide Observe, Env, LeaderLive;
  }

  lemma PublishAfterwards(w: World, pid: nat)
    requires w.phase == Supervising(pid) && w.job.status == Running && Cleaned(w)
    ensures Apply(Apply(Apply(w, RunEnds(true)), Finalize(true)), Finish(true))
         == w.(phase := Monitoring, staging := false,
               job := w.job.(exitConfirmed := true, status := Finished), saved := w.job.(exitConfirmed := true, status := Finished))
  {
    hide Cleaned, Observe, LeaderLive, Possible;
    assert Apply(w, RunEnds(true)) == Update(w.(phase := Monitoring), w.job.(exitConfirmed := true), true);
  }

  /** A worker whose journal could not be written is not admitted: it exits when the gate is closed. */
  lemma RefusedRun(w: World, pid: nat)
    requires Initial(w) && w.os.Free(pid)
    ensures var r := Run(w, [SaveStarted, Spawn(pid), PersistFails, WorkerReads, Reap]);
            !r.admitted && r.phase == Supervising(pid) && r.reaped && r.os.procs == w.os.procs
  {
    RunFive(w, SaveStarted, Spawn(pid), PersistFails, WorkerReads, Reap);
    var w3 := Apply(Apply(Apply(w, SaveStarted), Spawn(pid)), PersistFails);
    assert LeaderLive(w3) && !w3.gateOpen && !w3.gateByte && w3.os.procs[pid].ours;
    var w4 := Apply(w3, WorkerReads);
    assert w4.os.procs[pid].zombie && w4.phase == Supervising(pid);
    assert w4.os.procs - {pid} == w.os.procs;
    hide Run, ProcessTable.Env, Observe;
  }

  /** A launch that failed is over at the next restart. */
  lemma FailedLaunchIsOver(w: World)
    requires Initial(w)
    ensures var r := Apply(Apply(Apply(Apply(w, SaveStarted), LaunchFails(true)), AppCrash), Restart(false, true, true));
            r.saved == r.job == Record(true, true, Interrupted)
  {
    hide Observe, Orphan;
  }

  /** Leaving the group is outside the contract: a member that did so is not seen. */
  lemma EscapedMemberIsNotSeen()
    ensures exists os: OS, e: EnvStep, journal: Identity ::
              && e.Join? && Observe(os, journal.boot, Some(journal), false) != Exited
              && Observe(Env(os, e), journal.boot, Some(journal), false) == Exited
              && Env(os, e).Live(6) && Env(os, e).procs[6].family == WORKER
  {
    var os := OS(map[6 := Proc(2, WORKER, 5, false, false)], 3, []);
    var id := Identity(5, 1, 0);
    var e := Join(6, 6);
    assert os.procs[6].group == 5 && os.Live(6);
    assert Observe(os, 0, Some(id), false) != Exited;
    assert Env(os, e).procs == map[6 := Proc(2, WORKER, 6, false, false)];
    assert Observe(Env(os, e), 0, Some(id), false) == Exited;
  }

  // ---------- the journal file and the gate ----------

  /** What a read or write call returned. The calls end with a failure. */
  datatype Call = Retry | Failed | Moved(count: nat)

  /** The calls move n bytes before one fails or moves nothing. */
  predicate Completes(calls: seq<Call>, n: nat)
    decreases |calls|
  {
    n == 0
    || (calls != [] && match calls[0]
                       case Retry => Completes(calls[1..], n)
                       case Failed => false
                       case Moved(c) => c > 0 && Completes(calls[1..], if c < n then n - c else 0))
  }

  /** The worker's private directory. seen: every content the journal had between two calls. */
  class JobDirectory {
    var journal: Option<seq<byte>>
    var temporary: Option<seq<byte>>
    ghost var seen: set<Option<seq<byte>>>

    constructor ()
      ensures journal.None? && temporary.None? && seen == {None}
    {
      journal, temporary, seen := None, None, {None};
    }

    /** Appends the data to the temporary file, in as many pieces as the calls make of it. */
    method WriteAll(data: seq<byte>, calls: seq<Call>) returns (ok: bool)
      requires temporary == Some([])
      modifies this
      ensures ok == Completes(calls, |data|)
      ensures temporary.Some? && temporary.value <= data && (ok ==> temporary.value == data)
      ensures journal == old(journal) && seen == old(seen) + {journal}
    {
      var offset, used := 0, 0;
      seen := seen + {journal};
      while offset < |data|
        invariant 0 <= offset <= |data| && 0 <= used <= |calls|
        invariant temporary == Some(data[..offset])
        invariant Completes(calls, |data|) == Completes(calls[used..], |data| - offset)
        invariant journal == old(journal) && seen == old(seen) + {journal}
        decreases |calls| - used
      {
        if used == |calls| { return false; }
        var call := calls[used];
        assert calls[used..][1..] == calls[used + 1..];
        used := used + 1;
        if call.Retry? { continue; }
        if call.Failed? || call.count == 0 { return false; }
        var count := if call.count < |data| - offset then call.count else |data| - offset;
        temporary := Some(temporary.value + data[offset..offset + count]);
        assert data[..offset] + data[offset..offset + count] == data[..offset + count];
        offset := offset + count;
        seen := seen + {journal};
      }
      return true;
    }

    /** Writes a new file, then renames it without replacing. */
    method Persist(data: seq<byte>, calls: seq<Call>, created: bool, synced: bool, directorySynced: bool)
      returns (ok: bool)
      modifies this
      ensures ok == (created && Completes(calls, |data|) && synced && old(journal).None? && directorySynced)
      ensures ok ==> journal == Some(data)
      ensures old(journal).Some? ==> journal == old(journal)
      ensures temporary.None?
      ensures seen <= old(seen) + {old(journal), Some(data)} && journal in seen
    {
      seen := seen + {journal};
      if !created { temporary := None; return false; }
      temporary := Some([]);
      ok := WriteAll(data, calls);
      if !ok || !synced || journal.Some? { temporary := None; return false; }
      journal, temporary := temporary, None;
      seen := seen + {journal};
      return directorySynced;
    }

    /** Reads the whole journal in pieces; anything short of that is no answer. */
    method Load(calls: seq<Call>) returns (data: Option<seq<byte>>)
      ensures data.Some? <==> journal.Some? && 0 < |journal.value| <= 16384 && Completes(calls, |journal.value|)
      ensures data.Some? ==> data == journal
    {
      if journal.None? || journal.value == [] || |journal.value| > 16384 { return None; }
      var file := journal.value;
      var bytes: seq<byte>, used := [], 0;
      while |bytes| < |file|
        invariant bytes <= file && 0 <= used <= |calls|
        invariant Completes(calls, |file|) == Completes(calls[used..], |file| - |bytes|)
        decreases |calls| - used
      {
        if used == |calls| { return None; }
        var call := calls[used];
        assert calls[used..][1..] == calls[used + 1..];
        used := used + 1;
        if call.Retry? { continue; }
        if call.Failed? || call.count == 0 { return None; }
        var count := if call.count < |file| - |bytes| then call.count else |file| - |bytes|;
        bytes := bytes + file[|bytes|..|bytes| + count];
      }
      assert bytes == file;
      return Some(bytes);
    }
  }

  /** A journal that was persisted is read back whole. */
  method PersistThenLoad(directory: JobDirectory, data: seq<byte>, writes: seq<Call>, answers: seq<Call>)
    returns (read: Option<seq<byte>>)
    requires directory.journal.None? && 0 < |data| <= 16384
    requires Completes(writes, |data|) && Completes(answers, |data|)
    modifies directory
    ensures read == Some(data)
  {
    var ok := directory.Persist(data, writes, true, true, true);
    read := directory.Load(answers);
  }

  /** What reading one byte from the gate gave. */
  datatype GateRead = Again | Broken | End | Got(value: byte)

  /** The first answer other than an interruption decides. */
  function Admits(answers: seq<GateRead>): bool {
    if answers == [] then false
    else if answers[0].Again? then Admits(answers[1..])
    else answers[0] == Got(1)
  }

  method AwaitAdmission(answers: seq<GateRead>) returns (admitted: bool)
    ensures admitted == Admits(answers)
  {
    var used := 0;
    while used < |answers| && answers[used].Again?
      invariant used <= |answers| && Admits(answers) == Admits(answers[used..])
    {
      assert answers[used..][1..] == answers[used + 1..];
      used := used + 1;
    }
    return used < |answers| && answers[used].Got? && answers[used].value == 1;
  }

  /** A closed gate admits nobody: without the byte 1 the worker does not start. */
  lemma {:induction false} OnlyTheByteAdmits(answers: seq<GateRead>)
    ensures Admits(answers) <==>
            exists k :: 0 <= k < |answers| && answers[k] == Got(1) && forall j :: 0 <= j < k ==> answers[j].Again?
  {
    if answers != [] && answers[0].Again? {
      OnlyTheByteAdmits(answers[1..]);
      if Admits(answers) {
        var k :| 0 <= k < |answers[1..]| && answers[1..][k] == Got(1) && forall j :: 0 <= j < k ==> answers[1..][j].Again?;
        assert answers[k + 1] == Got(1);
        assert forall j :: 0 <= j < k + 1 ==> answers[j].Again? by {
          forall j | 0 <= j < k + 1 ensures answers[j].Again? {
            if j > 0 { assert answers[j] == answers[1..][j - 1]; }
          }
        }
      } else if k :| 0 <= k < |answers| && answers[k] == Got(1) && forall j :: 0 <= j < k ==> answers[j].Again? {
        assert k > 0 && answers[1..][k - 1] == Got(1);
      }
    }
  }
}
