/**
 The operating system as the supervisor sees it: processes with reusable identifiers, process
 groups, zombies, and everything other programs may do between two of its calls. Every process
 carries a serial number and the family (launch) it descends from; programs see neither.
 */
module ProcessTable {
  import opened Wrappers

  const FOREIGN := 0

  /** ours: a child of the supervising program, so only it may reap the process. */
  datatype Proc = Proc(serial: nat, family: nat, group: nat, zombie: bool, ours: bool)

  datatype Kind = Terminate | Kill

  /** target: the family it was meant for. reached: the processes it reached, with their families. */
  datatype Signal = Signal(kind: Kind, target: nat, reached: map<nat, nat>) {
    predicate Aimed() { forall q :: q in reached ==> reached[q] == target }
  }

  /** log: every nonzero signal that was sent. */
  datatype OS = OS(procs: map<nat, Proc>, serials: nat, log: seq<Signal>) {
    predicate Live(pid: nat) { pid in procs && !procs[pid].zombie }

    /** The kernel hands out an identifier only if neither a process nor a group has it. */
    predicate Free(pid: nat) {
      pid !in procs && forall q :: q in procs ==> procs[q].group != pid
    }

    predicate GroupGone(group: nat) {
      forall q :: q in procs && procs[q].group == group ==> procs[q].zombie
    }

    function Members(group: nat): map<nat, nat> {
      map q | q in procs && procs[q].group == group && !procs[q].zombie :: procs[q].family
    }
  }

  /** One thing the rest of the machine does. */
  datatype EnvStep =
    | Fork(parent: nat, child: nat)
    | Exit(pid: nat)
    | Join(pid: nat, group: nat)       // setpgid: a worker leaves its group
    | ForeignSpawn(pid: nat, group: nat)
    | Steal(pid: nat)                  // another waiter in the program reaps a child
    | Enter(pid: nat, group: nat)      // setpgid: a foreign process enters a group

  function Env(os: OS, e: EnvStep): OS {
    match e
    case Fork(parent, child) =>
      if os.Live(parent) && os.Free(child) then
        var p := os.procs[parent];
        os.(procs := os.procs[child := Proc(os.serials, p.family, p.group, false, false)], serials := os.serials + 1)
      else os
    case Exit(pid) =>
      if !os.Live(pid) then os
      else if os.procs[pid].ours then os.(procs := os.procs[pid := os.procs[pid].(zombie := true)])
      else os.(procs := os.procs - {pid})
    case Join(pid, group) =>
      if os.Live(pid) && (group == pid || (exists q :: q in os.procs && os.procs[q].group == group))
         && forall q :: q in os.procs && os.procs[q].group == group ==> os.procs[q].family == os.procs[pid].family
      then os.(procs := os.procs[pid := os.procs[pid].(group := group)])
      else os
    case ForeignSpawn(pid, group) =>
      if os.Free(pid) && (group == pid || (exists q :: q in os.procs && os.procs[q].group == group))
         && forall q :: q in os.procs && os.procs[q].group == group ==> os.procs[q].family == FOREIGN
      then os.(procs := os.procs[pid := Proc(os.serials, FOREIGN, group, false, false)], serials := os.serials + 1)
      else os
    case Enter(pid, group) =>
      if os.Live(pid) && os.procs[pid].family == FOREIGN && exists q :: q in os.procs && os.procs[q].group == group
      then os.(procs := os.procs[pid := os.procs[pid].(group := group)])
      else os
    case Steal(pid) =>
      if pid in os.procs && os.procs[pid].ours && os.procs[pid].zombie then os.(procs := os.procs - {pid}) else os
  }

  function EnvRun(os: OS, es: seq<EnvStep>): OS
    decreases |es|
  {
    if es == [] then os else EnvRun(Env(os, es[0]), es[1..])
  }

  /** posix_spawn with POSIX_SPAWN_SETPGROUP: the child leads a new group. */
  function Spawn(os: OS, pid: nat, family: nat): OS
    requires os.Free(pid)
  {
    os.(procs := os.procs[pid := Proc(os.serials, family, pid, false, true)], serials := os.serials + 1)
  }

  /** kill(-group, signal) for a nonzero signal meant for a family. */
  function KillGroup(os: OS, group: nat, family: nat, kind: Kind): OS {
    os.(log := os.log + [Signal(kind, family, os.Members(group))])
  }

  function KillOne(os: OS, pid: nat, family: nat, kind: Kind): OS {
    os.(log := os.log + [Signal(kind, family, if os.Live(pid) then map[pid := os.procs[pid].family] else map[])])
  }

  // ---------- what holds of every table ----------

  /** A group is all of one family; a process whose identifier names a nonempty group is of that
      family. */
  ghost predicate Sound(os: OS) {
    && (forall q, r :: q in os.procs && r in os.procs && os.procs[q].group == os.procs[r].group ==>
          os.procs[q].family == os.procs[r].family)
    && (forall q, r :: q in os.procs && r in os.procs && os.procs[q].group == r ==>
          os.procs[q].family == os.procs[r].family)
  }

  lemma NewcomerSound(os: OS, e: EnvStep)
    requires Sound(os) && (e.Fork? || e.ForeignSpawn?)
    ensures Sound(Env(os, e))
  {
    var pid := if e.Fork? then e.child else e.pid;
    assert Env(os, e).procs != os.procs ==> forall q :: q in os.procs ==> os.procs[q].group != pid;
  }

  lemma EnvSound(os: OS, e: EnvStep)
    requires Sound(os) && !e.Enter?
    ensures Sound(Env(os, e)) && Env(os, e).log == os.log
  {
    if e.Fork? || e.ForeignSpawn? {
      NewcomerSound(os, e);
      hide Sound;
    } else if !e.Join? {
      var os' := Env(os, e);
      assert forall q :: q in os'.procs ==> q in os.procs && os'.procs[q].family == os.procs[q].family
                                            && os'.procs[q].group == os.procs[q].group;
    }
  }

  /** The leader is still a child of ours that nobody reaped. */
  ghost predicate Held(os: OS, pid: nat, family: nat) {
    pid in os.procs && os.procs[pid].family == family && os.procs[pid].ours
  }

  lemma EnvHeld(os: OS, e: EnvStep, pid: nat, family: nat)
    requires Held(os, pid, family) && e != Steal(pid)
    ensures Held(Env(os, e), pid, family)
  {
  }

  // ---------- workers that stay in their group ----------

  /** The only processes besides foreign ones are of one family, all in the group of its leader;
      only the leader can be a zombie waiting to be reaped. */
  ghost predicate Resident(os: OS, pid: nat, family: nat) {
    && (forall q :: q in os.procs ==> os.procs[q].family == FOREIGN || (os.procs[q].family == family && os.procs[q].group == pid))
    && (forall q :: q in os.procs && os.procs[q].ours ==> q == pid && os.procs[q].family == family)
    && (forall q :: q in os.procs && os.procs[q].zombie ==> os.procs[q].ours)
  }

  /** Only foreign processes. */
  ghost predicate Vacant(os: OS) {
    forall q :: q in os.procs ==> os.procs[q].family == FOREIGN && !os.procs[q].ours && !os.procs[q].zombie
  }

  lemma EnvResident(os: OS, e: EnvStep, pid: nat, family: nat)
    requires Resident(os, pid, family) && !e.Join?
    ensures Resident(Env(os, e), pid, family)
    ensures pid !in os.procs || !os.procs[pid].ours ==> pid !in Env(os, e).procs || !Env(os, e).procs[pid].ours
  {
  }

  lemma EnvVacant(os: OS, e: EnvStep)
    requires Vacant(os)
    ensures Vacant(Env(os, e))
  {
  }
}
