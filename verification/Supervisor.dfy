/**
 The process runner: one process group per request, stopped with SIGTERM and then SIGKILL,
 reaped without ever signalling a released identifier. The runner is an actor whose run
 suspends once per round, so polling and rejected requests fall between rounds; what other
 processes do falls between any two system calls.
 */
module Supervisor {
  import opened Wrappers
  import opened ProcessTable

  // ---------- the world between two calls ----------

  /** What happens before the next system call, and whether that call is interrupted. */
  datatype Batch = Batch(steps: seq<EnvStep>, interrupted: bool)

  datatype World = World(os: OS, script: seq<Batch>) {
    function Pause(): World {
      if script == [] then this else World(EnvRun(os, script[0].steps), script[1..])
    }

    predicate Interrupted() { script != [] && script[0].interrupted }
  }

  /** family labels the launch; the program never reads it. */
  datatype Child = Child(pid: nat, family: nat, collected: bool, lost: bool)

  datatype Watch = Watch(world: World, child: Child)

  // ---------- the operations of a child ----------

  /** waitid(WNOWAIT): observe an exit without reaping. */
  function Exited(x: Watch): (Watch, bool) {
    if x.child.collected then (x, true)
    else if x.child.lost then (x, false)
    else
      var w := x.world.Pause();
      if x.world.Interrupted() then (x.(world := w), false)
      else if x.child.pid in w.os.procs && w.os.procs[x.child.pid].ours
      then (x.(world := w), w.os.procs[x.child.pid].zombie)
      else (Watch(w, x.child.(lost := true)), false)
  }

  /** kill(-pid), and kill(pid) if the leader has left its group. */
  function Send(x: Watch, kind: Kind): Watch {
    if x.child.collected || x.child.lost then x
    else
      var pid := x.child.pid;
      var w := x.world.Pause();
      var w1 := w.(os := KillGroup(w.os, pid, x.child.family, kind)).Pause();
      if pid in w1.os.procs && w1.os.procs[pid].group == pid then x.(world := w1)
      else
        var w2 := w1.Pause();
        x.(world := w2.(os := KillOne(w2.os, pid, x.child.family, kind)))
  }

  /** waitpid(WNOHANG), only after an exit was observed. */
  function ReapIfExited(x: Watch): Watch {
    if x.child.collected then x
    else
      var (y, exited) := Exited(x);
      if !exited || y.child.lost then y
      else
        var w := y.world.Pause();
        if y.world.Interrupted() then y.(world := w)
        else if x.child.pid in w.os.procs && w.os.procs[x.child.pid].ours then
          if w.os.procs[x.child.pid].zombie
          then Watch(w.(os := w.os.(procs := w.os.procs - {x.child.pid})), y.child.(collected := true))
          else y.(world := w)
        else Watch(w, y.child.(lost := true))
  }

  /** Collected, and signal 0 finds nobody in the group. */
  function Cleaned(x: Watch): (Watch, bool) {
    if !x.child.collected then (x, false)
    else
      var w := x.world.Pause();
      (x.(world := w), w.os.GroupGone(x.child.pid))
  }

  // ---------- one round of the supervision loop ----------

  datatype Policy = Policy(grace: nat, reap: nat)

  /** now: the first clock reading of a round; a round reads the clock again for each deadline, and
      every reading is some time after the one before it. pipeFailure: draining a pipe reported an
      error. */
  datatype Tick = Tick(now: nat, toStop: nat, toGrace: nat, toKill: nat, toReap: nat,
                       cancelled: bool, pipeFailure: bool)
  {
    function Stop(): nat { now + toStop }
    function Grace(): nat { Stop() + toGrace }
    function Kill(): nat { Grace() + toKill }
    function Last(): nat { Kill() + toReap }
  }

  datatype Run = Run(watch: Watch, stopAt: Option<nat>, killAt: Option<nat>,
                     cancelled: bool, forced: bool, failed: bool, done: bool)

  function Started(watch: Watch, failed: bool): Run {
    Run(watch, None, None, false, false, failed, false)
  }

  function Expired(since: Option<nat>, now: nat, limit: nat): bool {
    since.Some? && now - since.value >= limit
  }

  /** The exit is observed: kill survivors once, then reap. */
  function OnExit(r: Run, now: nat): Run {
    var (x, exited) := Exited(r.watch);
    if !exited then r.(watch := x)
    else
      var y := if r.killAt.None? then Send(x, Kill) else x;
      r.(watch := ReapIfExited(y), killAt := if r.killAt.None? then Some(now) else r.killAt)
  }

  /** Stop, escalate, give up. */
  function Escalate(p: Policy, r: Run, t: Tick): Run {
    var r1 := if (r.cancelled || r.failed) && r.stopAt.None?
              then r.(stopAt := Some(t.Stop()), watch := Send(r.watch, Terminate)) else r;
    var r2 := if r1.stopAt.Some? && r1.killAt.None? && Expired(r1.stopAt, t.Grace(), p.grace)
              then r1.(killAt := Some(t.Kill()), watch := Send(r1.watch, Kill), forced := true) else r1;
    if Expired(r2.killAt, t.Last(), p.reap) then r2.(done := true) else r2
  }

  function Round(p: Policy, r: Run, t: Tick): Run {
    if r.done then r
    else
      var r0 := r.(cancelled := r.cancelled || t.cancelled, failed := r.failed || t.pipeFailure);
      if r0.watch.child.lost then r0.(failed := true, done := true)
      else
        var r1 := OnExit(r0, t.now);
        var (x, cleaned) := Cleaned(r1.watch);
        var r2 := r1.(watch := x);
        if cleaned then r2.(done := true) else Escalate(p, r2, t)
  }

  function Rounds(p: Policy, r: Run, ticks: seq<Tick>): Run
    decreases |ticks|
  {
    if ticks == [] then r else Rounds(p, Round(p, r, ticks[0]), ticks[1..])
  }

  // ---------- the actor ----------

  /** running: the run that is suspended between two rounds. launches: children spawned so far. */
  datatype Actor = Actor(world: World, active: bool, pending: Option<Child>, running: Option<Run>, launches: nat)

  datatype Event =
    | Begin(pid: nat, admissionFailed: bool) // a request that gets past the guards and spawns
    | BeginFails                             // a request that fails before spawning
    | Advance(tick: Tick)
    | Poll
    | Pass(steps: seq<EnvStep>)

  function Do(p: Policy, a: Actor, e: Event): Actor {
    match e
    case Begin(pid, admissionFailed) =>
      if a.pending.Some? || a.active || !a.world.os.Free(pid) then a
      else
        var family := a.launches + 1;
        var w := a.world.(os := Spawn(a.world.os, pid, family));
        a.(world := w, active := true, launches := family,
           running := Some(Started(Watch(w, Child(pid, family, false, false)), admissionFailed)))
    case BeginFails => a
    case Advance(t) =>
      if a.running.None? then a
      else
        var r := Round(p, a.running.value.(watch := a.running.value.watch.(world := a.world)), t);
        if !r.done then a.(world := r.watch.world, running := Some(r))
        else
          var (x, cleaned) := Cleaned(r.watch);
          a.(world := x.world, running := None,
             pending := if cleaned then None else Some(x.child), active := !cleaned)
    case Poll =>
      if a.pending.None? then a
      else
        var (x, cleaned) := Cleaned(ReapIfExited(Watch(a.world, a.pending.value)));
        a.(world := x.world, pending := if cleaned then None else Some(x.child), active := !cleaned)
    case Pass(steps) => a.(world := a.world.(os := EnvRun(a.world.os, steps)))
  }

  function DoAll(p: Policy, a: Actor, es: seq<Event>): Actor
    decreases |es|
  {
    if es == [] then a else DoAll(p, Do(p, a, es[0]), es[1..])
  }

  ghost predicate Initial(a: Actor) {
    && !a.active && a.pending.None? && a.running.None? && a.launches == 0
    && (forall q :: q in a.world.os.procs ==> a.world.os.procs[q].family == FOREIGN && !a.world.os.procs[q].ours)
    && Sound(a.world.os) && a.world.os.log == []
  }

  // ---------- assumptions about other processes ----------

  /** Nobody else reaps our children, and no foreign process enters a worker's group. */
  ghost predicate Apart(es: seq<EnvStep>) { forall e :: e in es ==> !e.Steal? && !e.Enter? }
  ghost predicate NoJoin(es: seq<EnvStep>) { forall e :: e in es ==> !e.Join? }

  ghost predicate ScriptApart(script: seq<Batch>) { forall b :: b in script ==> Apart(b.steps) }
  ghost predicate ScriptNoJoin(script: seq<Batch>) { forall b :: b in script ==> NoJoin(b.steps) }

  // ---------- signals ----------

  /** Every nonzero signal reached only the family it was meant for. */
  ghost predicate Aimed(os: OS) {
    forall s :: s in os.log ==> s.Aimed()
  }

  /** While uncollected, a child whose leader nobody else reaps holds its identifier. */
  ghost predicate Guarded(x: Watch) {
    && Sound(x.world.os) && Aimed(x.world.os) && ScriptApart(x.world.script)
    && !(x.child.collected && x.child.lost)
    && (!x.child.collected ==> Held(x.world.os, x.child.pid, x.child.family) && !x.child.lost)
  }

  lemma {:induction false} EnvRunKeeps(os: OS, es: seq<EnvStep>, pid: nat, family: nat)
    requires Sound(os) && Apart(es)
    ensures Sound(EnvRun(os, es)) && EnvRun(os, es).log == os.log
    ensures Held(os, pid, family) ==> Held(EnvRun(os, es), pid, family)
    decreases |es|
  {
    if es != [] {
      assert es[0] in es && Apart(es[1..]);
      EnvSound(os, es[0]);
      if Held(os, pid, family) {
        EnvHeld(os, es[0], pid, family);
      }
      EnvRunKeeps(Env(os, es[0]), es[1..], pid, family);
    }
  }

  lemma PauseGuarded(x: Watch)
    requires Guarded(x)
    ensures Guarded(x.(world := x.world.Pause()))
    ensures x.world.Pause().os.log == x.world.os.log
  {
    if x.world.script != [] {
      EnvRunKeeps(x.world.os, x.world.script[0].steps, x.child.pid, x.child.family);
      assert x.world.script[0] in x.world.script;
    }
  }

  lemma ExitedGuarded(x: Watch)
    requires Guarded(x)
    ensures Guarded(Exited(x).0)
    ensures Exited(x).0.world.os.log == x.world.os.log
  {
    PauseGuarded(x);
  }

  lemma KillIsAimed(os: OS, pid: nat, family: nat, kind: Kind)
    requires Sound(os) && Aimed(os) && Held(os, pid, family)
    ensures Aimed(KillGroup(os, pid, family, kind)) && Aimed(KillOne(os, pid, family, kind))
  {
  }

  lemma SendGuarded(x: Watch, kind: Kind)
    requires Guarded(x)
    ensures Guarded(Send(x, kind))
  {
    if !x.child.collected {
      var pid, family := x.child.pid, x.child.family;
      PauseGuarded(x);
      var w := x.world.Pause();
      KillIsAimed(w.os, pid, family, kind);
      var x1 := x.(world := w.(os := KillGroup(w.os, pid, family, kind)));
      PauseGuarded(x1);
      var x2 := x1.(world := x1.world.Pause());
      PauseGuarded(x2);
      var w2 := x2.world.Pause();
      KillIsAimed(w2.os, pid, family, kind);
    }
  }

  lemma ReapGuarded(x: Watch)
    requires Guarded(x)
    ensures Guarded(ReapIfExited(x))
  {
    ExitedGuarded(x);
    PauseGuarded(Exited(x).0);
  }

  lemma CleanedGuarded(x: Watch)
    requires Guarded(x)
    ensures Guarded(Cleaned(x).0)
  {
    PauseGuarded(x);
  }

  /** A property of world and child that the four operations keep. */
  ghost predicate Closed(inv: Watch -> bool) {
    && (forall x :: inv(x) ==> inv(Exited(x).0) && inv(ReapIfExited(x)) && inv(Cleaned(x).0))
    && (forall x, kind :: inv(x) ==> inv(Send(x, kind)))
  }

  /** One round consists of those operations only. */
  lemma RoundKeeps(p: Policy, r: Run, t: Tick, inv: Watch -> bool)
    requires Closed(inv) && inv(r.watch)
    ensures inv(Round(p, r, t).watch)
  {
    hide Exited, Send, ReapIfExited, Cleaned;
    if !r.done && !r.watch.child.lost {
      var r0 := r.(cancelled := r.cancelled || t.cancelled, failed := r.failed || t.pipeFailure);
      var r1 := OnExit(r0, t.now);
      assert inv(r1.watch) by {
        var x := Exited(r0.watch).0;
        assert inv(x) && inv(Send(x, Kill));
        assert inv(ReapIfExited(x)) && inv(ReapIfExited(Send(x, Kill)));
      }
      var x := Cleaned(r1.watch).0;
      assert inv(x);
      EscalateKeeps(p, r1.(watch := x), t, inv);
    }
  }

  lemma EscalateKeeps(p: Policy, r: Run, t: Tick, inv: Watch -> bool)
    requires Closed(inv) && inv(r.watch)
    ensures inv(Escalate(p, r, t).watch)
  {
    hide Exited, Send, ReapIfExited, Cleaned;
    assert inv(Send(r.watch, Terminate)) && inv(Send(Send(r.watch, Terminate), Kill)) && inv(Send(r.watch, Kill));
  }

  lemma {:induction false} RoundsKeep(p: Policy, r: Run, ticks: seq<Tick>, inv: Watch -> bool)
    requires Closed(inv) && inv(r.watch)
    ensures inv(Rounds(p, r, ticks).watch)
    decreases |ticks|
  {
    hide Closed, Round;
    if ticks != [] {
      RoundKeeps(p, r, ticks[0], inv);
      RoundsKeep(p, Round(p, r, ticks[0]), ticks[1..], inv);
    }
  }

  /** What an actor keeps: the child it supervises or retains holds its identifier until it is
      collected, and all signals so far were meant for launches and reached only their families. */
  ghost predicate Shielded(a: Actor) {
    && (a.running.Some? || a.pending.Some? ==> a.active) && !(a.running.Some? && a.pending.Some?)
    && Sound(a.world.os) && Aimed(a.world.os) && ScriptApart(a.world.script)
    && Launched(a.world.os, a.launches)
    && (a.running.Some? ==> Covered(a.running.value.watch.(world := a.world), a.launches))
    && (a.pending.Some? ==> Covered(Watch(a.world, a.pending.value), a.launches))
  }

  ghost predicate Launched(os: OS, launches: nat) {
    forall s :: s in os.log ==> FOREIGN < s.target <= launches
  }

  ghost predicate Covered(x: Watch, launches: nat) {
    Guarded(x) && FOREIGN < x.child.family <= launches && Launched(x.world.os, launches)
  }

  lemma SendCovered(x: Watch, launches: nat, kind: Kind)
    requires Covered(x, launches)
    ensures Covered(Send(x, kind), launches)
  {
    SendGuarded(x, kind);
    if !x.child.collected && !x.child.lost {
      var pid, family := x.child.pid, x.child.family;
      var w := x.world.Pause();
      var w1 := w.(os := KillGroup(w.os, pid, family, kind)).Pause();
      PauseLog(x.world);
      PauseLog(w.(os := KillGroup(w.os, pid, family, kind)));
      PauseLog(w1);
    }
    hide Guarded;
  }

  lemma CoveredIsClosed(launches: nat)
    ensures Closed((x: Watch) => Covered(x, launches))
  {
    forall x | Covered(x, launches)
      ensures Covered(Exited(x).0, launches) && Covered(ReapIfExited(x), launches) && Covered(Cleaned(x).0, launches)
    {
      ExitedGuarded(x);
      ReapGuarded(x);
      CleanedGuarded(x);
      PauseLog(x.world);
      PauseLog(Exited(x).0.world);
      hide Guarded, Send;
    }
    forall x, kind | Covered(x, launches)
      ensures Covered(Send(x, kind), launches)
    {
      SendCovered(x, launches, kind);
    }
  }

  lemma CoveredMeans(x: Watch, launches: nat)
    requires Covered(x, launches)
    ensures Sound(x.world.os) && Aimed(x.world.os) && ScriptApart(x.world.script) && Launched(x.world.os, launches)
  {
  }

  ghost predicate ApartEvent(e: Event) { e.Pass? ==> Apart(e.steps) }

  lemma SpawnShielded(a: Actor, pid: nat, failed: bool)
    requires Shielded(a) && !a.active && a.world.os.Free(pid)
    ensures Shielded(Do(Policy(0, 0), a, Begin(pid, failed)))
  {
    hide Apart;
  }

  lemma PassShielded(a: Actor, es: seq<EnvStep>)
    requires Shielded(a) && Apart(es)
    ensures Shielded(a.(world := a.world.(os := EnvRun(a.world.os, es))))
  {
    var pid, family := if a.running.Some? then a.running.value.watch.child.pid
                       else if a.pending.Some? then a.pending.value.pid else 0,
                       if a.running.Some? then a.running.value.watch.child.family
                       else if a.pending.Some? then a.pending.value.family else 0;
    EnvRunKeeps(a.world.os, es, pid, family);
    hide Sound, Held, ScriptApart, Apart, EnvRun;
  }

  lemma AdvanceShielded(p: Policy, a: Actor, t: Tick)
    requires Shielded(a) && a.running.Some?
    ensures Shielded(Do(p, a, Advance(t)))
  {
    var inv := (x: Watch) => Covered(x, a.launches);
    var r0 := a.running.value.(watch := a.running.value.watch.(world := a.world));
    CoveredIsClosed(a.launches);
    assert inv(r0.watch);
    RoundKeeps(p, r0, t, inv);
    var r := Round(p, r0, t);
    assert inv(r.watch);
    assert inv(Cleaned(r.watch).0);
    CoveredMeans(r.watch, a.launches);
    CoveredMeans(Cleaned(r.watch).0, a.launches);
    hide Round, Cleaned, Covered, Closed, Sound, Aimed, Launched, ScriptApart;
  }

  lemma PollShielded(p: Policy, a: Actor)
    requires Shielded(a) && a.pending.Some?
    ensures Shielded(Do(p, a, Poll))
  {
    var inv := (x: Watch) => Covered(x, a.launches);
    var x := Watch(a.world, a.pending.value);
    CoveredIsClosed(a.launches);
    assert inv(x);
    assert inv(ReapIfExited(x));
    assert inv(Cleaned(ReapIfExited(x)).0);
    CoveredMeans(Cleaned(ReapIfExited(x)).0, a.launches);
    hide ReapIfExited, Cleaned, Covered, Closed, Sound, Aimed, Launched, ScriptApart;
  }

  lemma DoShielded(p: Policy, a: Actor, e: Event)
    requires Shielded(a) && ApartEvent(e)
    ensures Shielded(Do(p, a, e))
  {
    hide Shielded;
    match e
    case Begin(pid, failed) =>
      if !a.active && a.pending.None? && a.world.os.Free(pid) { SpawnShielded(a, pid, failed); }
    case BeginFails =>
    case Advance(t) => if a.running.Some? { AdvanceShielded(p, a, t); }
    case Poll => if a.pending.Some? { PollShielded(p, a); }
    case Pass(steps) => PassShielded(a, steps);
  }

  lemma {:induction false} DoAllShielded(p: Policy, a: Actor, es: seq<Event>)
    requires Shielded(a) && forall e :: e in es ==> ApartEvent(e)
    ensures Shielded(DoAll(p, a, es))
    decreases |es|
  {
    hide Shielded, ApartEvent, Do;
    if es != [] {
      assert es[0] in es;
      DoShielded(p, a, es[0]);
      assert forall e :: e in es[1..] ==> e in es;
      DoAllShielded(p, Do(p, a, es[0]), es[1..]);
    }
  }

  /** Over every interleaving of requests, rounds, polls of retained children and other processes,
      under reuse of identifiers: every nonzero signal ever sent was meant for a launched worker and
      reached only the family of that launch. */
  lemma SignalsStayInTheFamily(p: Policy, a: Actor, es: seq<Event>)
    requires Initial(a) && ScriptApart(a.world.script)
    requires forall e :: e in es ==> ApartEvent(e)
    ensures
      var a' := DoAll(p, a, es);
      forall s :: s in a'.world.os.log ==> FOREIGN < s.target <= a'.launches && s.Aimed()
  {
    assert Shielded(a);
    DoAllShielded(p, a, es);
  }

  /** Without the assumption: another waiter reaps the leader, its identifier is reused, and the
      stop signal reaches a foreign process. */
  lemma StolenLeader() returns (x: Watch)
    ensures Sound(x.world.os) && Held(x.world.os, x.child.pid, x.child.family) && x.world.os.log == []
    ensures !x.child.collected && !x.child.lost
    ensures !Aimed(Send(x, Terminate).world.os)
  {
    var os := OS(map[2 := Proc(1, 1, 2, true, true)], 2, []);
    var steps := [Steal(2), ForeignSpawn(2, 2)];
    x := Watch(World(os, [Batch(steps, false)]), Child(2, 1, false, false));
    var os1 := Env(os, steps[0]);
    assert os1.procs == map[];
    var os2 := Env(os1, steps[1]);
    assert os2.procs == map[2 := Proc(2, FOREIGN, 2, false, false)];
    assert steps[1..] == [steps[1]] && steps[1..][1..] == [];
    assert EnvRun(os, steps) == EnvRun(os1, [steps[1]]) == EnvRun(os2, []) == os2;
    var w := x.world.Pause();
    assert w.os == os2 && w.script == [];
    assert os2.Members(2)[2] == FOREIGN;
    var signal := Signal(Terminate, 1, os2.Members(2));
    assert Send(x, Terminate).world.os.log == [signal];
    assert signal in Send(x, Terminate).world.os.log;
  }

  /** Nor without the other: a foreign process enters the worker's group, and the stop signal for
      the group reaches it. */
  lemma IntruderIsSignalled() returns (x: Watch)
    ensures Sound(x.world.os) && Held(x.world.os, x.child.pid, x.child.family) && x.world.os.log == []
    ensures !x.child.collected && !x.child.lost
    ensures !Aimed(Send(x, Terminate).world.os)
  {
    var os := OS(map[2 := Proc(1, 1, 2, false, true), 3 := Proc(2, FOREIGN, 3, false, false)], 3, []);
    var steps := [Enter(3, 2)];
    x := Watch(World(os, [Batch(steps, false)]), Child(2, 1, false, false));
    assert os.procs[2].group == 2;
    var os1 := Env(os, steps[0]);
    assert os1.procs[3].group == 2 && os1.procs[3].family == FOREIGN && os1.procs[2] == os.procs[2];
    assert steps[1..] == [];
    assert EnvRun(os, steps) == EnvRun(os1, []) == os1;
    var w := x.world.Pause();
    assert w.os == os1 && w.script == [];
    assert os1.Members(2)[3] == FOREIGN;
    var signal := Signal(Terminate, 1, os1.Members(2));
    assert Send(x, Terminate).world.os.log == [signal];
    assert signal in Send(x, Terminate).world.os.log;
  }

  // ---------- silence after release ----------

  ghost predicate Released(c: Child) { c.collected || c.lost }

  /** After the leader was reaped, or its identity lost, no nonzero signal is sent any more. */
  lemma SilentAfterRelease(p: Policy, r: Run, ticks: seq<Tick>)
    requires Released(r.watch.child)
    ensures
      var r' := Rounds(p, r, ticks);
      Released(r'.watch.child) && r'.watch.world.os.log == r.watch.world.os.log
  {
    var log := r.watch.world.os.log;
    var inv := (x: Watch) => Released(x.child) && x.world.os.log == log;
    forall x | inv(x)
      ensures inv(Exited(x).0) && inv(ReapIfExited(x)) && inv(Cleaned(x).0)
    {
      PauseLog(x.world);
    }
    assert forall x, kind :: inv(x) ==> inv(Send(x, kind));
    RoundsKeep(p, r, ticks, inv);
  }

  lemma PauseLog(w: World)
    ensures w.Pause().os.log == w.os.log
  {
    if w.script != [] {
      EnvRunLog(w.os, w.script[0].steps);
    }
  }

  lemma {:induction false} EnvRunLog(os: OS, es: seq<EnvStep>)
    ensures EnvRun(os, es).log == os.log
    decreases |es|
  {
    if es != [] {
      EnvRunLog(Env(os, es[0]), es[1..]);
    }
  }

  /** A collected status and a lost identity never coexist. */
  lemma NeverBoth(p: Policy, r: Run, ticks: seq<Tick>)
    requires !(r.watch.child.collected && r.watch.child.lost)
    ensures
      var c := Rounds(p, r, ticks).watch.child;
      !(c.collected && c.lost)
  {
    var inv := (x: Watch) => !(x.child.collected && x.child.lost);
    forall x | inv(x)
      ensures inv(Exited(x).0) && inv(ReapIfExited(x)) && inv(Cleaned(x).0)
    {
      OperationsNeverBoth(x);
    }
    assert forall x, kind :: Send(x, kind).child == x.child;
    RoundsKeep(p, r, ticks, inv);
  }

  lemma OperationsNeverBoth(x: Watch)
    requires !(x.child.collected && x.child.lost)
    ensures
      var a, b, c := Exited(x).0.child, ReapIfExited(x).child, Cleaned(x).0.child;
      !(a.collected && a.lost) && !(b.collected && b.lost) && !(c.collected && c.lost)
  {
  }

  // ---------- one worker at a time ----------

  /** The current child's family is the only one besides foreign processes; once its leader is
      collected no child of ours is left. */
  ghost predicate Sole(x: Watch) {
    && ScriptNoJoin(x.world.script)
    && x.child.family != FOREIGN
    && Resident(x.world.os, x.child.pid, x.child.family)
    && (x.child.collected ==> forall q :: q in x.world.os.procs ==> !x.world.os.procs[q].ours)
  }

  ghost predicate NoneOurs(os: OS) { forall q :: q in os.procs ==> !os.procs[q].ours }

  lemma {:induction false} EnvRunResident(os: OS, es: seq<EnvStep>, pid: nat, family: nat)
    requires Resident(os, pid, family) && NoJoin(es)
    ensures Resident(EnvRun(os, es), pid, family)
    ensures NoneOurs(os) ==> NoneOurs(EnvRun(os, es))
    decreases |es|
  {
    if es != [] {
      assert es[0] in es && NoJoin(es[1..]);
      EnvResident(os, es[0], pid, family);
      EnvRunResident(Env(os, es[0]), es[1..], pid, family);
    }
  }

  lemma PauseSole(x: Watch)
    requires Sole(x)
    ensures Sole(x.(world := x.world.Pause()))
  {
    if x.world.script != [] {
      assert x.world.script[0] in x.world.script;
      EnvRunResident(x.world.os, x.world.script[0].steps, x.child.pid, x.child.family);
      assert x.child.collected ==> NoneOurs(x.world.os);
    }
  }

  lemma SendSole(x: Watch, kind: Kind)
    requires Sole(x)
    ensures Sole(Send(x, kind))
  {
    PauseSole(x);
    var w := x.world.Pause();
    var x1 := x.(world := w.(os := KillGroup(w.os, x.child.pid, x.child.family, kind)));
    PauseSole(x1);
    PauseSole(x1.(world := x1.world.Pause()));
  }

  lemma ReapSole(x: Watch)
    requires Sole(x)
    ensures Sole(ReapIfExited(x)) && ReapIfExited(x).child.family == x.child.family
  {
    PauseSole(x);
    PauseSole(Exited(x).0);
  }

  lemma SoleIsClosed()
    ensures Closed((x: Watch) => Sole(x))
  {
    forall x | Sole(x)
      ensures Sole(Exited(x).0) && Sole(ReapIfExited(x)) && Sole(Cleaned(x).0)
    {
      PauseSole(x);
      ReapSole(x);
    }
    forall x, kind | Sole(x)
      ensures Sole(Send(x, kind))
    {
      SendSole(x, kind);
    }
  }

  /** Idle, or supervising or awaiting one child. */
  ghost predicate Coherent(a: Actor) {
    && (a.pending.Some? ==> a.active)
    && (a.running.Some? ==> a.active && !a.running.value.done)
    && !(a.pending.Some? && a.running.Some?)
    && (a.active ==> a.pending.Some? || a.running.Some?)
    && ScriptNoJoin(a.world.script)
    && match (a.running, a.pending)
       case (Some(r), _) => Sole(r.watch.(world := a.world))
       case (None, Some(c)) => Sole(Watch(a.world, c))
       case (None, None) => Vacant(a.world.os)
  }

  ghost predicate NoJoinEvent(e: Event) { e.Pass? ==> NoJoin(e.steps) }

  lemma SpawnSole(os: OS, pid: nat, family: nat, script: seq<Batch>)
    requires Vacant(os) && os.Free(pid) && family != FOREIGN && ScriptNoJoin(script)
    ensures Sole(Watch(World(Spawn(os, pid, family), script), Child(pid, family, false, false)))
  {
  }

  lemma RoundSole(p: Policy, r: Run, t: Tick)
    requires Sole(r.watch)
    ensures Sole(Round(p, r, t).watch)
  {
    var inv := (x: Watch) => Sole(x);
    SoleIsClosed();
    RoundKeeps(p, r, t, inv);
    assert inv(Round(p, r, t).watch);
  }

  lemma FinishSole(x: Watch)
    requires Sole(x)
    ensures Sole(Cleaned(x).0)
    ensures Cleaned(x).1 ==> Vacant(Cleaned(x).0.world.os)
  {
    PauseSole(x);
  }

  lemma PassCoherent(a: Actor, es: seq<EnvStep>)
    requires Coherent(a) && NoJoin(es)
    ensures Coherent(a.(world := a.world.(os := EnvRun(a.world.os, es))))
  {
    if a.running.Some? {
      var c := a.running.value.watch.child;
      EnvRunResident(a.world.os, es, c.pid, c.family);
      assert c.collected ==> NoneOurs(a.world.os);
    } else if a.pending.Some? {
      var c := a.pending.value;
      EnvRunResident(a.world.os, es, c.pid, c.family);
      assert c.collected ==> NoneOurs(a.world.os);
    } else {
      EnvRunVacant(a.world.os, es);
    }
  }

  lemma {:induction false} EnvRunVacant(os: OS, es: seq<EnvStep>)
    requires Vacant(os)
    ensures Vacant(EnvRun(os, es))
    decreases |es|
  {
    if es != [] {
      EnvVacant(os, es[0]);
      EnvRunVacant(Env(os, es[0]), es[1..]);
    }
  }

  lemma DoCoherent(p: Policy, a: Actor, e: Event)
    requires Coherent(a) && NoJoinEvent(e)
    ensures Coherent(Do(p, a, e))
  {
    hide Round, Cleaned, ReapIfExited, Sole;
    match e
    case Begin(pid, failed) =>
      if !a.active && a.world.os.Free(pid) {
        SpawnSole(a.world.os, pid, a.launches + 1, a.world.script);
      }
    case BeginFails =>
    case Advance(t) =>
      if a.running.Some? {
        var r0 := a.running.value.(watch := a.running.value.watch.(world := a.world));
        RoundSole(p, r0, t);
        var r := Round(p, r0, t);
        FinishSole(r.watch);
        SoleScript(r.watch);
        SoleScript(Cleaned(r.watch).0);
      }
    case Poll =>
      if a.pending.Some? {
        var x := Watch(a.world, a.pending.value);
        ReapSole(x);
        FinishSole(ReapIfExited(x));
        SoleScript(Cleaned(ReapIfExited(x)).0);
      }
    case Pass(steps) => PassCoherent(a, steps);
  }

  lemma SoleScript(x: Watch)
    requires Sole(x)
    ensures ScriptNoJoin(x.world.script)
  {
  }

  lemma {:induction false} DoAllCoherent(p: Policy, a: Actor, es: seq<Event>)
    requires Coherent(a) && forall e :: e in es ==> NoJoinEvent(e)
    ensures Coherent(DoAll(p, a, es))
    decreases |es|
  {
    if es != [] {
      assert es[0] in es;
      DoCoherent(p, a, es[0]);
      assert forall e :: e in es[1..] ==> e in es;
      DoAllCoherent(p, Do(p, a, es[0]), es[1..]);
    }
  }

  predicate Worker(os: OS, q: nat) { q in os.procs && os.procs[q].family != FOREIGN }

  /** Over every interleaving of requests, rounds, polls and other processes: all worker processes
      belong to one launch, and an open admission means that none is left. */
  lemma OneWorkerAtATime(p: Policy, a: Actor, es: seq<Event>)
    requires Initial(a) && ScriptNoJoin(a.world.script)
    requires forall q :: q in a.world.os.procs ==> !a.world.os.procs[q].zombie
    requires forall e :: e in es ==> NoJoinEvent(e)
    ensures
      var a' := DoAll(p, a, es);
      && (a'.pending.Some? ==> a'.active)
      && (!a'.active ==> Vacant(a'.world.os))
      && (forall q, r :: Worker(a'.world.os, q) && Worker(a'.world.os, r) ==>
            a'.world.os.procs[q].family == a'.world.os.procs[r].family)
  {
    assert Coherent(a);
    DoAllCoherent(p, a, es);
  }

  /** A lost identity keeps admission closed forever. */
  lemma {:induction false} LostIsForever(p: Policy, a: Actor, es: seq<Event>)
    requires a.active && a.running.None? && a.pending.Some? && a.pending.value.lost && !a.pending.value.collected
    ensures
      var a' := DoAll(p, a, es);
      a'.active && a'.pending == a.pending && a'.launches == a.launches
    decreases |es|
  {
    if es != [] {
      LostIsForever(p, Do(p, a, es[0]), es[1..]);
    }
  }

  /** The child that holds the admission lock, with the world as it is now. */
  function Holder(a: Actor): Watch
    requires a.pending.Some? || a.running.Some?
  {
    Watch(a.world, if a.pending.Some? then a.pending.value else a.running.value.watch.child)
  }

  /** Whatever other processes do, the admission lock of a child reopens only in a step that has
      collected this child's status and has seen its group empty. */
  lemma ReopensOnlyWhenCleaned(p: Policy, a: Actor, e: Event)
    requires a.active && (a.pending.Some? || a.running.Some?) && !(a.pending.Some? && a.running.Some?)
    requires !Do(p, a, e).active
    ensures e.Poll? || e.Advance?
    ensures Do(p, a, e).world.os.GroupGone(Holder(a).child.pid)
    ensures e.Poll? ==> ReapIfExited(Holder(a)).child.collected
    ensures e.Advance? ==> Round(p, a.running.value.(watch := Holder(a)), e.tick).watch.child.collected
  {
    hide Round, ReapIfExited, Exited;
    if e.Advance? && a.running.Some? { RoundKeepsPid(p, a.running.value.(watch := Holder(a)), e.tick); }
    if e.Poll? && a.pending.Some? { ReapKeepsPid(Holder(a)); }
  }

  lemma ReapKeepsPid(x: Watch)
    ensures ReapIfExited(x).child.pid == x.child.pid
  {
  }

  lemma RoundKeepsPid(p: Policy, r: Run, t: Tick)
    ensures Round(p, r, t).watch.child.pid == r.watch.child.pid
  {
    var pid := r.watch.child.pid;
    var inv := (x: Watch) => x.child.pid == pid;
    assert Closed(inv);
    RoundKeeps(p, r, t, inv);
  }

  // ---------- the loop ends in time ----------

  /** Clock readings never go back, and from the first reading of a round to the last one of the
      next at most d passes. first and last: those of the round before. */
  ghost predicate Clocked(first: nat, last: nat, ticks: seq<Tick>, d: nat)
    decreases |ticks|
  {
    ticks == []
    || (&& first <= last <= ticks[0].now && ticks[0].Last() <= first + d
        && Clocked(ticks[0].now, ticks[0].Last(), ticks[1..], d))
  }

  function LastNow(last: nat, ticks: seq<Tick>): nat
    decreases |ticks|
  {
    if ticks == [] then last else LastNow(ticks[0].Last(), ticks[1..])
  }

  /** The deadlines after a round that read the clock from first to last. A run that has just begun
      has none. */
  ghost predicate Timed(p: Policy, r: Run, first: nat, last: nat, d: nat) {
    && first <= last <= first + d
    && (r.stopAt.Some? ==> r.stopAt.value <= last)
    && (r.killAt.Some? ==> r.killAt.value <= last)
    && (!r.done && r.killAt.Some? ==> last - r.killAt.value < p.reap)
    && (!r.done && r.stopAt.Some? && r.killAt.None? ==> first - r.stopAt.value < p.grace)
    && (!r.done && r.stopAt.Some? && r.killAt.Some? ==> r.killAt.value <= r.stopAt.value + p.grace + d)
  }

  /** A stop is needed: cancelled, or something failed, the admission before the first round
      included. */
  predicate StopNeeded(r: Run, t: Tick) { r.cancelled || r.failed || t.cancelled || t.pipeFailure }

  /** The deadlines that exist are kept, and a new one is set to a reading of this round. */
  ghost predicate Extends(r: Run, r': Run, t: Tick) {
    && (r.stopAt.Some? ==> r'.stopAt == r.stopAt)
    && (r.stopAt.None? && r'.stopAt.Some? ==> r'.stopAt == Some(t.Stop()))
    && (r.killAt.Some? ==> r'.killAt == r.killAt)
    && (r.killAt.None? && r'.killAt.Some? ==> r'.killAt == Some(t.now) || r'.killAt == Some(t.Kill()))
  }

  lemma EscalateDeadlines(p: Policy, r: Run, t: Tick, d: nat)
    requires !r.done && t.Last() <= t.now + d
    requires (r.stopAt.Some? ==> r.stopAt.value <= t.now) && (r.killAt.Some? ==> r.killAt.value <= t.now)
    requires r.stopAt.Some? && r.killAt.None? ==> t.Last() - r.stopAt.value < p.grace + d
    requires r.stopAt.Some? && r.killAt.Some? ==> r.killAt.value <= r.stopAt.value + p.grace + d
    ensures
      var r' := Escalate(p, r, t);
      && Timed(p, r', t.now, t.Last(), d) && Extends(r, r', t)
      && (r'.done || (r.cancelled || r.failed ==> r'.stopAt.Some?))
  {
    hide Send;
  }

  /** What a round does to the deadlines, whatever the system calls answered: every need for a stop
      starts the first deadline at once. */
  lemma RoundDeadlines(p: Policy, r: Run, t: Tick, first: nat, last: nat, d: nat)
    requires Timed(p, r, first, last, d) && last <= t.now && t.Last() <= first + d && !r.done
    ensures
      var r' := Round(p, r, t);
      && Timed(p, r', t.now, t.Last(), d) && Extends(r, r', t)
      && (StopNeeded(r, t) ==> r'.done || r'.stopAt.Some?)
  {
    hide Exited, Send, ReapIfExited, Cleaned, Escalate;
    if !r.watch.child.lost {
      var r1 := OnExit(r.(cancelled := r.cancelled || t.cancelled, failed := r.failed || t.pipeFailure), t.now);
      if !Cleaned(r1.watch).1 {
        if r.stopAt.Some? && r.killAt.None? {
          assert t.Last() - r.stopAt.value < p.grace + d;
        }
        EscalateDeadlines(p, r1.(watch := Cleaned(r1.watch).0), t, d);
      }
    }
  }

  /** However long it waits, the loop does not outlast its deadlines. */
  lemma {:induction false} DeadlinesHold(p: Policy, r: Run, ticks: seq<Tick>, first: nat, last: nat, d: nat)
    requires Timed(p, r, first, last, d) && Clocked(first, last, ticks, d)
    ensures
      var r', end := Rounds(p, r, ticks), LastNow(last, ticks);
      && (r.stopAt.Some? && end >= r.stopAt.value + p.grace + p.reap + d ==> r'.done)
      && (r.killAt.Some? && end >= r.killAt.value + p.reap ==> r'.done)
    decreases |ticks|
  {
    if ticks != [] {
      if r.done {
        RoundsDone(p, r, ticks);
      } else {
        RoundDeadlines(p, r, ticks[0], first, last, d);
        hide Round, Timed;
        DeadlinesHold(p, Round(p, r, ticks[0]), ticks[1..], ticks[0].now, ticks[0].Last(), d);
      }
    }
  }

  /** Round i takes place, and in it the leader is seen to have exited. */
  ghost predicate SeesExit(p: Policy, r: Run, ticks: seq<Tick>, i: nat)
    requires i < |ticks|
  {
    var before := Rounds(p, r, ticks[..i]);
    !before.done && !before.watch.child.lost && Exited(before.watch).1
  }

  /** From any round on in which a stop is needed, and from any in which an exit is seen. */
  lemma {:induction false} EndsAfterRound(p: Policy, r: Run, ticks: seq<Tick>, first: nat, last: nat, d: nat, i: nat)
    requires Timed(p, r, first, last, d) && Clocked(first, last, ticks, d) && i < |ticks|
    ensures
      var end := LastNow(last, ticks);
      && (StopNeeded(Rounds(p, r, ticks[..i]), ticks[i]) && end >= ticks[i].Stop() + p.grace + p.reap + d ==>
            Rounds(p, r, ticks).done)
      && (SeesExit(p, r, ticks, i) && end >= ticks[i].now + p.reap ==> Rounds(p, r, ticks).done)
    decreases |ticks|
  {
    var t, next := ticks[0], Round(p, r, ticks[0]);
    if r.done {
      RoundsDone(p, r, ticks);
    } else {
      RoundDeadlines(p, r, t, first, last, d);
      if i == 0 {
        assert ticks[..0] == [];
        if SeesExit(p, r, ticks, 0) { ExitStartsTheLastDeadline(p, r, t); }
        DeadlinesHold(p, next, ticks[1..], t.now, t.Last(), d);
        if next.done { RoundsDone(p, next, ticks[1..]); }
      } else {
        assert ticks[..i][0] == t && ticks[..i][1..] == ticks[1..][..i - 1];
        assert ticks[1..][i - 1] == ticks[i];
        EndsAfterRound(p, next, ticks[1..], t.now, t.Last(), d, i - 1);
      }
      hide Round, Exited, Timed;
    }
  }

  /** A supervision ends in time, from its first clock reading on, whatever the system calls answer:
      within grace, reap and one polling interval after the stop that a cancellation, a failure of a
      pipe, or a failed admission, which is seen in the first round, calls for; and within reap
      after the round that sees the leader's exit. */
  lemma LoopEndsInTime(p: Policy, w: Watch, failed: bool, ticks: seq<Tick>, d: nat, i: nat)
    requires i < |ticks| && Clocked(ticks[0].now, ticks[0].now, ticks, d)
    ensures
      var r, end := Started(w, failed), LastNow(ticks[0].now, ticks);
      && ((i == 0 && failed) || ticks[i].cancelled || ticks[i].pipeFailure ==>
            end >= ticks[i].Stop() + p.grace + p.reap + d ==> Rounds(p, r, ticks).done)
      && (SeesExit(p, r, ticks, i) && end >= ticks[i].now + p.reap ==> Rounds(p, r, ticks).done)
  {
    var r := Started(w, failed);
    EndsAfterRound(p, r, ticks, ticks[0].now, ticks[0].now, d, i);
    assert i == 0 ==> ticks[..i] == [];
    hide Round, SeesExit, Clocked;
  }

  lemma {:induction false} RoundsDone(p: Policy, r: Run, ticks: seq<Tick>)
    requires r.done
    ensures Rounds(p, r, ticks) == r
    decreases |ticks|
  {
    if ticks != [] {
      RoundsDone(p, r, ticks[1..]);
    }
  }

  /** A stop has a reason, and a stopped child is forced only after its grace. */
  ghost predicate Patient(p: Policy, r: Run) {
    && (r.stopAt.Some? ==> r.cancelled || r.failed)
    && (r.forced ==> r.stopAt.Some? && r.killAt.Some? && r.killAt.value >= r.stopAt.value + p.grace)
  }

  lemma RoundIsPatient(p: Policy, r: Run, t: Tick)
    requires Patient(p, r)
    ensures Patient(p, Round(p, r, t))
  {
    hide Exited, Send, ReapIfExited, Cleaned;
  }

  /** Over every supervision: nobody is stopped without a cancellation or a failure, and a child
      that was stopped and did not exit is killed only once its grace is over. */
  lemma {:induction false} GraceIsGiven(p: Policy, r: Run, ticks: seq<Tick>)
    requires Patient(p, r)
    ensures Patient(p, Rounds(p, r, ticks))
    decreases |ticks|
  {
    hide Round, Patient;
    if ticks != [] {
      RoundIsPatient(p, r, ticks[0]);
      GraceIsGiven(p, Round(p, r, ticks[0]), ticks[1..]);
    }
  }

  /** An observed exit is followed by a kill in the same round, so it is bounded by reap alone. */
  lemma ExitStartsTheLastDeadline(p: Policy, r: Run, t: Tick)
    requires !r.done && !r.watch.child.lost && Exited(r.watch).1
    ensures
      var r' := Round(p, r, t);
      r'.killAt.Some? && (r.killAt.None? ==> r'.killAt == Some(t.now))
  {
    hide Send, ReapIfExited, Cleaned;
  }

  // ---------- the objects ----------

  class Kernel {
    var world: World

    constructor (world: World)
      ensures this.world == world
    {
      this.world := world;
    }

    /** Other processes run until the next system call; it may be interrupted. */
    method Enter() returns (interrupted: bool)
      modifies this
      ensures world == old(world).Pause() && interrupted == old(world).Interrupted()
    {
      interrupted := world.Interrupted();
      world := world.Pause();
    }
  }

  class ChildProcess {
    const kernel: Kernel
    const pid: nat
    const family: nat
    var status: bool
    var identityLost: bool

    constructor (kernel: Kernel, pid: nat, family: nat)
      ensures this.kernel == kernel && State() == Watch(kernel.world, Child(pid, family, false, false))
    {
      this.kernel, this.pid, this.family := kernel, pid, family;
      status, identityLost := false, false;
    }

    ghost function State(): Watch
      reads this, kernel
    {
      Watch(kernel.world, Child(pid, family, status, identityLost))
    }

    method HasExited() returns (exited: bool)
      modifies this, kernel
      ensures (State(), exited) == Exited(old(State()))
    {
      if status {
        return true;
      }
      if identityLost {
        return false;
      }
      var interrupted := kernel.Enter();
      if interrupted {
        return false;
      }
      var procs := kernel.world.os.procs;
      if pid in procs && procs[pid].ours {
        return procs[pid].zombie;
      }
      identityLost := true;
      exited := false;
    }

    method SendSignal(kind: Kind)
      modifies this, kernel
      ensures State() == Send(old(State()), kind)
    {
      if status || identityLost {
        return;
      }
      var _ := kernel.Enter();
      kernel.world := kernel.world.(os := KillGroup(kernel.world.os, pid, family, kind));
      var _ := kernel.Enter();
      var procs := kernel.world.os.procs;
      if pid !in procs || procs[pid].group != pid {
        var _ := kernel.Enter();
        kernel.world := kernel.world.(os := KillOne(kernel.world.os, pid, family, kind));
      }
    }

    method Reap()
      modifies this, kernel
      ensures State() == ReapIfExited(old(State()))
    {
      if status {
        return;
      }
      var exited := HasExited();
      if !exited || identityLost {
        return;
      }
      var interrupted := kernel.Enter();
      if interrupted {
        return;
      }
      var os := kernel.world.os;
      if pid in os.procs && os.procs[pid].ours {
        if os.procs[pid].zombie {
          kernel.world := kernel.world.(os := os.(procs := os.procs - {pid}));
          status := true;
        }
      } else {
        identityLost := true;
      }
    }

    method IsCleaned() returns (cleaned: bool)
      modifies this, kernel
      ensures (State(), cleaned) == Cleaned(old(State()))
    {
      if !status {
        return false;
      }
      var _ := kernel.Enter();
      cleaned := kernel.world.os.GroupGone(pid);
    }
  }

  class ProcessRunner {
    const kernel: Kernel
    const policy: Policy
    var active: bool
    var pending: ChildProcess?
    var launches: nat

    constructor (kernel: Kernel, policy: Policy)
      ensures this.kernel == kernel && this.policy == policy
      ensures Valid() && !active && pending == null && launches == 0
    {
      this.kernel, this.policy := kernel, policy;
      active, pending, launches := false, null, 0;
    }

    ghost predicate Valid()
      reads this
    {
      pending != null ==> pending.kernel == kernel && active
    }

    /** The actor between two runs. */
    ghost function State(): Actor
      reads this, pending, kernel
      requires Valid()
    {
      Actor(kernel.world, active, if pending == null then None else Some(pending.State().child), None, launches)
    }

    method PollCleanup() returns (idle: bool)
      requires Valid()
      modifies this, pending, kernel
      ensures Valid() && State() == Do(policy, old(State()), Poll)
      ensures idle == !active
    {
      if pending == null {
        return !active;
      }
      pending.Reap();
      var cleaned := pending.IsCleaned();
      if cleaned {
        pending := null;
        active := false;
        return true;
      }
      idle := false;
    }

    /** The supervision loop, driven by the clock readings and events of its rounds. */
    method Supervise(child: ChildProcess, admissionFailed: bool, ticks: seq<Tick>)
      returns (stopAt: Option<nat>, killAt: Option<nat>, cancelled: bool, forced: bool, failed: bool, done: bool)
      requires child.kernel == kernel
      modifies child, kernel
      ensures Run(child.State(), stopAt, killAt, cancelled, forced, failed, done) ==
              Rounds(policy, Started(old(child.State()), admissionFailed), ticks)
    {
      stopAt, killAt, cancelled, forced, failed, done := None, None, false, false, admissionFailed, false;
      var i := 0;
      while i < |ticks| && !done
        invariant 0 <= i <= |ticks|
        invariant Rounds(policy, Started(old(child.State()), admissionFailed), ticks) ==
                  Rounds(policy, Run(child.State(), stopAt, killAt, cancelled, forced, failed, done), ticks[i..])
      {
        ghost var before := Run(child.State(), stopAt, killAt, cancelled, forced, failed, done);
        stopAt, killAt, cancelled, forced, failed, done :=
          OneRound(child, ticks[i], stopAt, killAt, cancelled, forced, failed);
        assert ticks[i..][0] == ticks[i] && ticks[i..][1..] == ticks[i + 1..];
        i := i + 1;
      }
      RoundsDoneOrEmpty(policy, Run(child.State(), stopAt, killAt, cancelled, forced, failed, done), ticks[i..]);
    }

    method OneRound(child: ChildProcess, t: Tick, stopAt0: Option<nat>, killAt0: Option<nat>,
                    cancelled0: bool, forced0: bool, failed0: bool)
      returns (stopAt: Option<nat>, killAt: Option<nat>, cancelled: bool, forced: bool, failed: bool, done: bool)
      requires child.kernel == kernel
      modifies child, kernel
      ensures Run(child.State(), stopAt, killAt, cancelled, forced, failed, done) ==
              Round(policy, Run(old(child.State()), stopAt0, killAt0, cancelled0, forced0, failed0, false), t)
    {
      hide Exited, Send, ReapIfExited, Cleaned, OnExit, Escalate;
      stopAt, killAt, forced, done := stopAt0, killAt0, forced0, false;
      failed, cancelled := failed0 || t.pipeFailure, cancelled0 || t.cancelled;
      if child.identityLost {
        failed, done := true, true;
        return;
      }
      killAt := NoticeExit(child, t.now, Run(child.State(), stopAt, killAt, cancelled, forced, failed, false), killAt);
      var cleaned := child.IsCleaned();
      if cleaned {
        done := true;
        return;
      }
      stopAt, killAt, forced, done := Pursue(child, t, stopAt, killAt, cancelled, forced, failed);
    }

    method NoticeExit(child: ChildProcess, now: nat, ghost r: Run, killAt0: Option<nat>) returns (killAt: Option<nat>)
      requires child.kernel == kernel && r.watch == child.State() && r.killAt == killAt0
      modifies child, kernel
      ensures OnExit(r, now) == r.(watch := child.State(), killAt := killAt)
    {
      hide Exited, Send, ReapIfExited;
      killAt := killAt0;
      var exited := child.HasExited();
      if exited {
        if killAt.None? {
          child.SendSignal(Kill);
          killAt := Some(now);
        }
        child.Reap();
      }
    }

    method Pursue(child: ChildProcess, t: Tick, stopAt0: Option<nat>, killAt0: Option<nat>,
                  cancelled: bool, forced0: bool, failed: bool)
      returns (stopAt: Option<nat>, killAt: Option<nat>, forced: bool, done: bool)
      requires child.kernel == kernel
      modifies child, kernel
      ensures Run(child.State(), stopAt, killAt, cancelled, forced, failed, done) ==
              Escalate(policy, Run(old(child.State()), stopAt0, killAt0, cancelled, forced0, failed, false), t)
    {
      hide Send;
      stopAt, killAt, forced, done := stopAt0, killAt0, forced0, false;
      if (cancelled || failed) && stopAt.None? {
        stopAt := Some(t.Stop());
        child.SendSignal(Terminate);
      }
      if stopAt.Some? && killAt.None? && t.Grace() - stopAt.value >= policy.grace {
        child.SendSignal(Kill);
        killAt := Some(t.Kill());
        forced := true;
      }
      if killAt.Some? && t.Last() - killAt.value >= policy.reap {
        done := true;
      }
    }

    /** One request: rejected while another child is not cleaned; otherwise the whole supervision,
        ending with the child either cleaned or kept as pending. Failing means nothing was spawned. */
    method RunRequest(pid: nat, admissionFailed: bool, ticks: seq<Tick>) returns (spawned: bool)
      requires Valid() && kernel.world.os.Free(pid)
      requires !active && pending == null ==> RunEnds(policy, kernel.world, pid, launches + 1, admissionFailed, ticks)
      modifies this, kernel
      ensures Valid()
      ensures spawned == (!old(active) && old(pending) == null)
      ensures !spawned ==> kernel.world == old(kernel.world) && active == old(active) && pending == old(pending)
      ensures spawned ==>
                var w := old(kernel.world);
                var family := old(launches) + 1;
                var r := Rounds(policy, Started(Watch(w.(os := Spawn(w.os, pid, family)),
                                                     Child(pid, family, false, false)), admissionFailed), ticks);
                var (x, cleaned) := Cleaned(r.watch);
                && kernel.world == x.world && launches == family
                && active == !cleaned && (pending == null <==> cleaned)
                && (pending != null ==> pending.State().child == x.child)
    {
      if pending != null || active {
        return false;
      }
      active := true;
      launches := launches + 1;
      kernel.world := kernel.world.(os := Spawn(kernel.world.os, pid, launches));
      var child := new ChildProcess(kernel, pid, launches);
      var _, _, _, _, _, _ := Supervise(child, admissionFailed, ticks);
      var cleaned := child.IsCleaned();
      if cleaned {
        active := false;
      } else {
        pending := child;
      }
      spawned := true;
    }
  }

  /** The rounds given are enough for the loop to end. */
  ghost predicate RunEnds(p: Policy, w: World, pid: nat, family: nat, admissionFailed: bool, ticks: seq<Tick>)
    requires w.os.Free(pid)
  {
    Rounds(p, Started(Watch(w.(os := Spawn(w.os, pid, family)), Child(pid, family, false, false)), admissionFailed), ticks).done
  }

  lemma RoundsDoneOrEmpty(p: Policy, r: Run, ticks: seq<Tick>)
    requires r.done || ticks == []
    ensures Rounds(p, r, ticks) == r
  {
    if r.done {
      RoundsDone(p, r, ticks);
    }
  }
}
