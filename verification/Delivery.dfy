/**
 The signals that a supervision has to send: the stop and the kill behind every deadline that it
 sets, and to whom they go. The supervisor's other properties only say who is never signalled.
 */
module Delivery {
  import opened ProcessTable
  import opened Supervisor
  import opened Wrappers

  // ---------- a world that only others change ----------

  /** What other processes have made of the world after n system calls. */
  function Later(w: World, n: nat): World {
    if n == 0 then w else Later(w, n - 1).Pause()
  }

  function WithLog(w: World, log: seq<Signal>): World { w.(os := w.os.(log := log)) }

  /** Since a moment n calls were made, and they did nothing but send signals. */
  ghost predicate OnlyPassed(w0: World, n: nat, w: World) { w == WithLog(Later(w0, n), w.os.log) }

  lemma {:induction false} EnvRunIgnoresLog(os: OS, es: seq<EnvStep>, log: seq<Signal>)
    ensures EnvRun(os.(log := log), es) == EnvRun(os, es).(log := log)
    decreases |es|
  {
    if es != [] {
      assert Env(os.(log := log), es[0]) == Env(os, es[0]).(log := log);
      hide Env;
      EnvRunIgnoresLog(Env(os, es[0]), es[1..], log);
    }
  }

  lemma PausePasses(w0: World, n: nat, w: World)
    requires OnlyPassed(w0, n, w)
    ensures OnlyPassed(w0, n + 1, w.Pause()) && w.Pause().os.log == w.os.log
  {
    PauseLog(w);
    var v := Later(w0, n);
    if v.script != [] { EnvRunIgnoresLog(v.os, v.script[0].steps, w.os.log); }
    hide EnvRun;
    assert Later(w0, n + 1) == v.Pause();
  }

  // ---------- a signal to the group ----------

  /** Exactly the processes that are alive in the group. */
  ghost predicate ReachesGroup(s: Signal, os: OS, group: nat) {
    forall q :: q in s.reached <==> os.Live(q) && os.procs[q].group == group
  }

  /** Meant for the child's family, it reached everybody who was alive in the child's group at some
      moment after w0. */
  ghost predicate Delivered(s: Signal, kind: Kind, w0: World, c: Child) {
    s.kind == kind && s.target == c.family && exists n: nat :: ReachesGroup(s, Later(w0, n).os, c.pid)
  }

  /** The signals from one length of the log on. */
  ghost predicate Among(log: seq<Signal>, i: nat, from: nat, kind: Kind, w0: World, c: Child) {
    from <= i < |log| && Delivered(log[i], kind, w0, c)
  }

  /** A longer log still has the signals of a shorter one. */
  lemma AmongGrows(log: seq<Signal>, log': seq<Signal>, i: nat, from: nat, from': nat, kind: Kind, w0: World, c: Child)
    requires log <= log' && from' <= from && Among(log, i, from, kind, w0, c)
    ensures Among(log', i, from', kind, w0, c)
  {
    assert log'[i] == log[i];
    hide Delivered;
  }

  /** Every signal from one length of the log on is meant for the family, and of a kind that is due. */
  ghost predicate Due(log: seq<Signal>, from: nat, family: nat, stop: bool, kill: bool) {
    forall i :: from <= i < |log| ==> log[i].target == family && if log[i].kind == Terminate then stop else kill
  }

  lemma NothingDue(log: seq<Signal>, family: nat)
    ensures Due(log, |log|, family, false, false)
  {
  }

  lemma DueIsWeaker(log: seq<Signal>, from: nat, family: nat, stop: bool, kill: bool, stop': bool, kill': bool)
    requires Due(log, from, family, stop, kill) && (stop ==> stop') && (kill ==> kill')
    ensures Due(log, from, family, stop', kill')
  {
  }

  lemma DueInTurn(log: seq<Signal>, log': seq<Signal>, from: nat, family: nat, stop: bool, kill: bool, stop': bool, kill': bool)
    requires log <= log' && Due(log, from, family, stop, kill) && Due(log', |log|, family, stop', kill')
    ensures Due(log', from, family, stop || stop', kill || kill')
  {
    assert forall i :: from <= i < |log| ==> log'[i] == log[i];
  }

  lemma GroupIsReached(kind: Kind, w0: World, n: nat, w: World, c: Child)
    requires OnlyPassed(w0, n, w)
    ensures var k := w.(os := KillGroup(w.os, c.pid, c.family, kind));
            && OnlyPassed(w0, n, k) && w.os.log < k.os.log
            && Among(k.os.log, |w.os.log|, |w.os.log|, kind, w0, c)
            && Due(k.os.log, |w.os.log|, c.family, kind == Terminate, kind == Kill)
  {
    var signal := Signal(kind, c.family, w.os.Members(c.pid));
    assert ReachesGroup(signal, Later(w0, n).os, c.pid);
    assert Delivered(signal, kind, w0, c);
    hide Later, Delivered;
  }

  lemma OneMoreDue(os: OS, kind: Kind, c: Child)
    ensures Due(KillOne(os, c.pid, c.family, kind).log, |os.log|, c.family, kind == Terminate, kind == Kill)
  {
  }

  lemma SendDelivers(x: Watch, kind: Kind, w0: World, n: nat) returns (n': nat)
    requires OnlyPassed(w0, n, x.world) && !x.child.collected && !x.child.lost
    ensures var y := Send(x, kind);
            && y.child == x.child && OnlyPassed(w0, n', y.world)
            && x.world.os.log < y.world.os.log
            && Due(y.world.os.log, |x.world.os.log|, x.child.family, kind == Terminate, kind == Kill)
            && Among(y.world.os.log, |x.world.os.log|, |x.world.os.log|, kind, w0, x.child)
  {
    var c, log := x.child, x.world.os.log;
    var w := x.world.Pause();
    PausePasses(w0, n, x.world);
    GroupIsReached(kind, w0, n + 1, w, c);
    var k := w.(os := KillGroup(w.os, c.pid, c.family, kind));
    PausePasses(w0, n + 1, k);
    PausePasses(w0, n + 2, k.Pause());
    hide Later, World.Pause, Due, Among, KillGroup;
    if c.pid in k.Pause().os.procs && k.Pause().os.procs[c.pid].group == c.pid {
      n' := n + 2;
    } else {
      n' := n + 3;
      var last := k.Pause().Pause();
      OneMoreDue(last.os, kind, c);
      var y := last.(os := KillOne(last.os, c.pid, c.family, kind));
      AmongGrows(k.os.log, y.os.log, |log|, |log|, |log|, kind, w0, c);
      DueInTurn(k.os.log, y.os.log, |log|, c.family, kind == Terminate, kind == Kill, kind == Terminate, kind == Kill);
    }
  }

  lemma ExitedPasses(x: Watch, w0: World, n: nat) returns (n': nat)
    requires OnlyPassed(w0, n, x.world)
    ensures var y := Exited(x).0;
            OnlyPassed(w0, n', y.world) && y.world.os.log == x.world.os.log && SameProcess(x.child, y.child)
  {
    PausePasses(w0, n, x.world);
    n' := if x.child.collected || x.child.lost then n else n + 1;
    hide OnlyPassed, Later, World.Pause;
  }

  predicate SameProcess(c: Child, d: Child) { c.pid == d.pid && c.family == d.family }

  lemma ReapPasses(x: Watch, w0: World, n: nat) returns (n': nat)
    requires OnlyPassed(w0, n, x.world) && !x.child.collected
    ensures var y := ReapIfExited(x);
            && y.world.os.log == x.world.os.log && SameProcess(x.child, y.child)
            && (!y.child.collected ==> OnlyPassed(w0, n', y.world))
            && (y.child.collected ==> !y.child.lost && Exited(x).1)
  {
    n' := ExitedPasses(x, w0, n);
    var y := Exited(x).0;
    PausePasses(w0, n', y.world);
    if Exited(x).1 && !y.child.lost { n' := n' + 1; }
    hide OnlyPassed, Later, World.Pause;
  }

  /** A deadline is set in this step. */
  predicate Sets(before: Option<nat>, after: Option<nat>) { before.None? && after.Some? }

  predicate Usable(c: Child) { !c.collected && !c.lost }

  lemma OnExitDelivers(r: Run, now: nat, w0: World, n: nat) returns (n': nat)
    requires OnlyPassed(w0, n, r.watch.world) && Usable(r.watch.child)
    ensures var r' := OnExit(r, now);
            var log, log' := r.watch.world.os.log, r'.watch.world.os.log;
            && log <= log' && SameProcess(r.watch.child, r'.watch.child)
            && (Sets(r.killAt, r'.killAt) ==> Among(log', |log|, |log|, Kill, w0, r.watch.child))
            && Due(log', |log|, r.watch.child.family, false, Sets(r.killAt, r'.killAt))
            && (!r'.watch.child.collected ==> OnlyPassed(w0, n', r'.watch.world))
            && (r'.watch.child.collected ==> r'.killAt.Some? && !r'.watch.child.lost)
  {
    n' := ExitedPasses(r.watch, w0, n);
    var (x, exited) := Exited(r.watch);
    if exited {
      var y := x;
      if r.killAt.None? {
        n' := SendDelivers(x, Kill, w0, n');
        y := Send(x, Kill);
      }
      hide OnlyPassed, Send, Due, Among, Exited, ReapIfExited;
      n' := ReapPasses(y, w0, n');
    }
    hide OnlyPassed, Send, Due, Among, Exited, ReapIfExited;
  }

  lemma SendsNothing(x: Watch)
    ensures !Usable(x.child) ==> forall kind :: Send(x, kind) == x
  {
  }

  lemma EscalateForm(p: Policy, r: Run, t: Tick)
    ensures var r' := Escalate(p, r, t);
            var stop, kill := Sets(r.stopAt, r'.stopAt), Sets(r.killAt, r'.killAt);
            var x := if stop then Send(r.watch, Terminate) else r.watch;
            && r'.watch == (if kill then Send(x, Kill) else x)
            && (r'.forced && !r.forced ==> kill && r'.stopAt.Some?) && (kill || r.forced ==> r'.forced)
            && (r.stopAt.Some? ==> r'.stopAt == r.stopAt) && (r.killAt.Some? ==> r'.killAt == r.killAt)
  {
    hide Send;
  }

  lemma EscalateDelivers(p: Policy, r: Run, t: Tick, w0: World, n: nat) returns (middle: nat)
    requires Usable(r.watch.child) ==> OnlyPassed(w0, n, r.watch.world)
    ensures var r' := Escalate(p, r, t);
            var log, log', c := r.watch.world.os.log, r'.watch.world.os.log, r.watch.child;
            && log <= log' && r'.watch.child == c
            && Due(log', |log|, c.family, Sets(r.stopAt, r'.stopAt), Sets(r.killAt, r'.killAt))
            && (Usable(c) && Sets(r.stopAt, r'.stopAt) ==> |log| < middle && Among(log', |log|, |log|, Terminate, w0, c))
            && (Usable(c) && Sets(r.killAt, r'.killAt) ==> Among(log', middle, |log|, Kill, w0, c))
            && (r'.forced && !r.forced ==> Sets(r.killAt, r'.killAt) && r'.stopAt.Some?)
            && (Sets(r.killAt, r'.killAt) ==> r'.forced) && (r.forced ==> r'.forced)
            && (r.stopAt.Some? ==> r'.stopAt == r.stopAt) && (r.killAt.Some? ==> r'.killAt == r.killAt)
  {
    SendsNothing(r.watch);
    EscalateForm(p, r, t);
    hide Send, OnlyPassed, Among, Due, Escalate;
    NothingDue(r.watch.world.os.log, r.watch.child.family);
    var r', c := Escalate(p, r, t), r.watch.child;
    var log := r.watch.world.os.log;
    middle := |log|;
    if Usable(c) {
      var x, n1 := r.watch, n;
      var stop, kill := Sets(r.stopAt, r'.stopAt), Sets(r.killAt, r'.killAt);
      if stop {
        n1 := SendDelivers(x, Terminate, w0, n1);
        x := Send(x, Terminate);
        middle := |x.world.os.log|;
      }
      var log1 := x.world.os.log;
      if kill {
        n1 := SendDelivers(x, Kill, w0, n1);
        x := Send(x, Kill);
        if stop { AmongGrows(log1, x.world.os.log, |log|, |log|, |log|, Terminate, w0, c); }
        DueInTurn(log1, x.world.os.log, |log|, c.family, stop, false, false, true);
        AmongGrows(x.world.os.log, x.world.os.log, middle, |log1|, |log|, Kill, w0, c);
      }
    } else {
      DueIsWeaker(r.watch.world.os.log, |r.watch.world.os.log|, c.family, false, false, Sets(r.stopAt, r'.stopAt),
                  Sets(r.killAt, r'.killAt));
    }
  }

  // ---------- one round ----------

  lemma CleanedPasses(x: Watch)
    ensures var y := Cleaned(x).0;
            && y.child == x.child && y.world.os.log == x.world.os.log && (!x.child.collected ==> y == x)
            && (Cleaned(x).1 ==> x.child.collected)
  {
    PauseLog(x.world);
  }

  function Noted(r: Run, t: Tick): Run {
    r.(cancelled := r.cancelled || t.cancelled, failed := r.failed || t.pipeFailure)
  }

  lemma RoundForm(p: Policy, r: Run, t: Tick)
    requires !r.done && !r.watch.child.lost
    ensures var r1 := OnExit(Noted(r, t), t.now);
            var r2 := r1.(watch := Cleaned(r1.watch).0);
            Round(p, r, t) == if Cleaned(r1.watch).1 then r2.(done := true) else Escalate(p, r2, t)
    ensures OnExit(Noted(r, t), t.now).stopAt == r.stopAt && OnExit(Noted(r, t), t.now).forced == r.forced
    ensures r.killAt.Some? ==> OnExit(Noted(r, t), t.now).killAt == r.killAt
  {
    hide Exited, Send, ReapIfExited, Cleaned, Escalate;
  }

  /** What a round sends while the child is neither collected nor lost. A deadline that it sets comes
      with a signal of its kind, which reaches the whole group as it is at that moment: for a stop if
      the child can still be signalled at the end of the round, and for a kill unless the identity
      was lost before its grace ran out. Nothing else is sent, and a stop precedes the kill that its
      grace leads to. */
  lemma RoundDelivers(p: Policy, r: Run, t: Tick) returns (i: nat, j: nat)
    requires !r.done && Usable(r.watch.child)
    ensures var r', w0, c := Round(p, r, t), r.watch.world, r.watch.child;
            var log, log', c' := r.watch.world.os.log, r'.watch.world.os.log, r'.watch.child;
            && log <= log' && SameProcess(c, c') && (r.forced ==> r'.forced) && (c'.collected ==> r'.killAt.Some?)
            && (r.stopAt.Some? ==> r'.stopAt == r.stopAt) && (r.killAt.Some? ==> r'.killAt == r.killAt)
            && (Sets(r.stopAt, r'.stopAt) && Usable(c') ==> Among(log', i, |log|, Terminate, w0, c))
            && (Sets(r.killAt, r'.killAt) && (!c'.lost || !r'.forced) ==> Among(log', j, |log|, Kill, w0, c))
            && (r'.forced && !r.forced ==> !c'.collected && r'.stopAt.Some? && Sets(r.killAt, r'.killAt))
            && (r'.forced && !r.forced && !c'.lost && r.stopAt.None? ==> i < j)
            && Due(log', |log|, c.family, Sets(r.stopAt, r'.stopAt), Sets(r.killAt, r'.killAt))
  {
    i, j := 0, 0;
    var w0, c, log := r.watch.world, r.watch.child, r.watch.world.os.log;
    assert OnlyPassed(w0, 0, w0);
    RoundForm(p, r, t);
    hide OnlyPassed, OnExit, Cleaned, Escalate, Delivered, Among, Due, Round;
    var n := OnExitDelivers(Noted(r, t), t.now, w0, 0);
    var r1 := OnExit(Noted(r, t), t.now);
    CleanedPasses(r1.watch);
    var kill, log1 := Sets(r.killAt, r1.killAt), r1.watch.world.os.log;
    if kill { j := |log|; }
    if Cleaned(r1.watch).1 {
      DueIsWeaker(log1, |log|, c.family, false, kill, Sets(r.stopAt, r1.stopAt), kill);
    } else {
      i := |log1|;
      var r2 := r1.(watch := Cleaned(r1.watch).0);
      var middle := EscalateDelivers(p, r2, t, w0, n);
      j := if kill then j else middle;
      TwoSteps(Noted(r, t), r2, Escalate(p, r2, t), w0, j, i, middle);
    }
  }

  /** The exit and the escalation together. */
  lemma TwoSteps(r: Run, r1: Run, r2: Run, w0: World, j: nat, i: nat, middle: nat)
    requires var log, log1, log2 := r.watch.world.os.log, r1.watch.world.os.log, r2.watch.world.os.log;
             var kill, stop, kill' := Sets(r.killAt, r1.killAt), Sets(r1.stopAt, r2.stopAt), Sets(r1.killAt, r2.killAt);
             var c, c1 := r.watch.child, r1.watch.child;
             && log <= log1 <= log2 && r1.stopAt == r.stopAt && i == |log1|
             && j == (if kill then |log| else middle)
             && (Usable(c1) ==> c1 == c)
             && (kill ==> Among(log1, |log|, |log|, Kill, w0, c)) && Due(log1, |log|, c.family, false, kill)
             && Due(log2, |log1|, c.family, stop, kill')
             && (Usable(c1) && stop ==> Among(log2, |log1|, |log1|, Terminate, w0, c1))
             && (Usable(c1) && kill' ==> Among(log2, middle, |log1|, Kill, w0, c1))
    ensures var log, log2 := r.watch.world.os.log, r2.watch.world.os.log;
            var kill, stop, kill' := Sets(r.killAt, r1.killAt), Sets(r1.stopAt, r2.stopAt), Sets(r1.killAt, r2.killAt);
            && Due(log2, |log|, r.watch.child.family, stop, kill || kill')
            && (Usable(r1.watch.child) && stop ==> Among(log2, i, |log|, Terminate, w0, r.watch.child))
            && (kill || (kill' && Usable(r1.watch.child)) ==> Among(log2, j, |log|, Kill, w0, r.watch.child))
  {
    hide Among, Due;
    var c, log, log1, log2 := r.watch.child, r.watch.world.os.log, r1.watch.world.os.log, r2.watch.world.os.log;
    var kill, stop, kill' := Sets(r.killAt, r1.killAt), Sets(r1.stopAt, r2.stopAt), Sets(r1.killAt, r2.killAt);
    DueInTurn(log1, log2, |log|, c.family, false, kill, stop, kill');
    if kill { AmongGrows(log1, log2, j, |log|, |log|, Kill, w0, c); }
    if Usable(r1.watch.child) {
      if stop { AmongGrows(log2, log2, i, |log1|, |log|, Terminate, w0, c); }
      if kill' && !kill { AmongGrows(log2, log2, j, |log1|, |log|, Kill, w0, c); }
    }
  }

  // ---------- a whole supervision ----------

  ghost predicate SentAt(log: seq<Signal>, from: nat, i: nat, kind: Kind, family: nat) {
    from <= i < |log| && log[i].kind == kind && log[i].target == family
  }

  ghost predicate Sent(log: seq<Signal>, from: nat, kind: Kind, family: nat) {
    exists i: nat :: SentAt(log, from, i, kind, family)
  }

  /** First a stop, then a kill. */
  ghost predicate SentBoth(log: seq<Signal>, from: nat, family: nat) {
    exists i: nat, j: nat :: i < j && SentAt(log, from, i, Terminate, family) && SentAt(log, from, j, Kill, family)
  }

  /** What a supervision that began at this length of the log has sent. */
  ghost predicate Promised(r: Run, from: nat) {
    var c, log := r.watch.child, r.watch.world.os.log;
    && from <= |log| && (r.forced ==> r.stopAt.Some? && r.killAt.Some?) && (c.collected ==> r.killAt.Some?)
    && (r.stopAt.Some? && Usable(c) ==> Sent(log, from, Terminate, c.family))
    && (r.killAt.Some? && !c.lost ==> Sent(log, from, Kill, c.family))
    && (r.forced && !c.lost ==> SentBoth(log, from, c.family))
    && Due(log, from, c.family, r.stopAt.Some?, r.killAt.Some?)
  }

  lemma SentGrows(log: seq<Signal>, log': seq<Signal>, from: nat, family: nat)
    requires log <= log'
    ensures forall kind :: Sent(log, from, kind, family) ==> Sent(log', from, kind, family)
    ensures SentBoth(log, from, family) ==> SentBoth(log', from, family)
  {
    assert forall i: nat, kind :: SentAt(log, from, i, kind, family) ==> SentAt(log', from, i, kind, family);
  }

  /** A released child is sent nothing. */
  lemma RoundKeepsReleased(p: Policy, r: Run, t: Tick, from: nat)
    requires Promised(r, from) && !r.done && !Usable(r.watch.child)
    ensures Promised(Round(p, r, t), from)
  {
    var r' := Round(p, r, t);
    assert Rounds(p, r, [t]) == r' by { assert Rounds(p, r', [t][1..]) == r'; }
    SilentAfterRelease(p, r, [t]);
    ReleasedRound(p, r, t);
    hide Round, Rounds, Sent, SentBoth;
    DueIsWeaker(r.watch.world.os.log, from, r.watch.child.family, r.stopAt.Some?, r.killAt.Some?, r'.stopAt.Some?, r'.killAt.Some?);
  }

  lemma ReleasedRound(p: Policy, r: Run, t: Tick)
    requires !Usable(r.watch.child) && !r.done
    ensures var r' := Round(p, r, t);
            && r'.watch.child == r.watch.child
            && (r.stopAt.Some? ==> r'.stopAt.Some?) && (r.killAt.Some? ==> r'.killAt.Some?)
            && (r.killAt.Some? || r.watch.child.lost ==> r'.forced == r.forced)
  {
    if !r.watch.child.lost {
      RoundForm(p, r, t);
      SendsNothing(r.watch);
      var r1 := OnExit(Noted(r, t), t.now);
      assert r1.watch == r.watch;
      CleanedPasses(r1.watch);
      SendsNothing(Cleaned(r1.watch).0);
      hide Round, OnExit, Send, Cleaned;
    }
  }

  lemma RoundKeepsPromised(p: Policy, r: Run, t: Tick, from: nat)
    requires Promised(r, from) && !r.done && Usable(r.watch.child)
    ensures Promised(Round(p, r, t), from)
  {
    var i, j := RoundDelivers(p, r, t);
    hide Round, Later, ReachesGroup;
    var r', c := Round(p, r, t), r.watch.child;
    var log, log' := r.watch.world.os.log, r'.watch.world.os.log;
    SentGrows(log, log', from, c.family);
    DueInTurn(log, log', from, c.family, r.stopAt.Some?, r.killAt.Some?, Sets(r.stopAt, r'.stopAt), Sets(r.killAt, r'.killAt));
    if Sets(r.stopAt, r'.stopAt) && Usable(r'.watch.child) { assert SentAt(log', from, i, Terminate, c.family); }
    if Sets(r.killAt, r'.killAt) && !r'.watch.child.lost {
      assert SentAt(log', from, j, Kill, c.family);
      if r'.forced && !r.forced && r.stopAt.Some? {
        var i0: nat :| SentAt(log, from, i0, Terminate, c.family);
        assert SentAt(log', from, i0, Terminate, c.family);
      }
    }
    hide Due, Among, Delivered;
  }

  lemma {:induction false} RunKeepsPromised(p: Policy, r: Run, ticks: seq<Tick>, from: nat)
    requires Promised(r, from)
    ensures Promised(Rounds(p, r, ticks), from)
    decreases |ticks|
  {
    if r.done {
      RoundsDone(p, r, ticks);
    } else if ticks != [] {
      if Usable(r.watch.child) { RoundKeepsPromised(p, r, ticks[0], from); } else { RoundKeepsReleased(p, r, ticks[0], from); }
      hide Round, Promised;
      RunKeepsPromised(p, Round(p, r, ticks[0]), ticks[1..], from);
    }
  }

  /** Over every supervision, whatever other processes do: a child reported as stopped by force was
      sent a stop and then a kill, unless its identity was lost; a child that can still be signalled
      was sent a stop if one is under way, and one whose exit was seen was killed with its group. No
      stop and no kill is sent without its deadline. */
  lemma RunDelivers(p: Policy, watch: Watch, failed: bool, ticks: seq<Tick>)
    requires Usable(watch.child)
    ensures var r', from := Rounds(p, Started(watch, failed), ticks), |watch.world.os.log|;
            var c', log' := r'.watch.child, r'.watch.world.os.log;
            && (r'.forced && !c'.lost ==> SentBoth(log', from, c'.family))
            && (r'.stopAt.Some? && Usable(c') ==> Sent(log', from, Terminate, c'.family))
            && (r'.killAt.Some? && !c'.lost ==> Sent(log', from, Kill, c'.family))
            && (forall i: nat, kind, family :: SentAt(log', from, i, kind, family) ==>
                  family == c'.family && if kind == Terminate then r'.stopAt.Some? else r'.killAt.Some?)
  {
    RunKeepsPromised(p, Started(watch, failed), ticks, |watch.world.os.log|);
    hide Rounds, Sent, SentBoth;
  }

  // ---------- undisturbed ----------

  /** The signals of one sending in a table that stays as it is: one to the group, and one to a leader
      that has left it. */
  function Signals(os: OS, c: Child, kind: Kind): seq<Signal> {
    [Signal(kind, c.family, os.Members(c.pid))]
    + (if c.pid in os.procs && os.procs[c.pid].group == c.pid then []
       else [Signal(kind, c.family, if os.Live(c.pid) then map[c.pid := os.procs[c.pid].family] else map[])])
  }

  /** Nothing else happens: an exited leader is collected, which removes it from the table and nothing
      else; a live one is left alone. The signals are those of the deadlines that are set, and nobody
      in the group, nor a leader outside it, is left out. The supervision is over exactly if a collected
      child's group is empty or the last deadline has passed. */
  lemma QuietRound(p: Policy, r: Run, t: Tick)
    requires !r.done && Usable(r.watch.child) && r.watch.world.script == []
    requires Held(r.watch.world.os, r.watch.child.pid, r.watch.child.family)
    ensures var os, c, r' := r.watch.world.os, r.watch.child, Round(p, r, t);
            var zombie := os.procs[c.pid].zombie;
            && r'.watch.child == c.(collected := zombie)
            && r'.watch.world.os.procs == (if zombie then os.procs - {c.pid} else os.procs)
            && r'.watch.world.os.log
               == os.log + (if Sets(r.stopAt, r'.stopAt) && !zombie then Signals(os, c, Terminate) else [])
                  + (if Sets(r.killAt, r'.killAt) then Signals(os, c, Kill) else [])
            && (zombie ==> r'.killAt.Some?)
            && (r'.done <==> (zombie && os.GroupGone(c.pid))
                             || (r'.killAt.Some? && t.Last() - r'.killAt.value >= p.reap))
  {
    var os, c := r.watch.world.os, r.watch.child;
    RoundForm(p, r, t);
    if os.procs[c.pid].zombie { QuietZombie(p, r, t); } else { QuietLeader(p, r, t); }
    hide Round, OnExit, Send, Escalate, OS.GroupGone, Signals, OS.Members, Cleaned;
  }

  lemma QuietZombie(p: Policy, r: Run, t: Tick)
    requires !r.done && Usable(r.watch.child) && r.watch.world.script == []
    requires Held(r.watch.world.os, r.watch.child.pid, r.watch.child.family) && r.watch.world.os.procs[r.watch.child.pid].zombie
    ensures var os, c := r.watch.world.os, r.watch.child;
            var r1 := OnExit(Noted(r, t), t.now);
            var r2 := r1.(watch := Cleaned(r1.watch).0);
            var r' := if Cleaned(r1.watch).1 then r2.(done := true) else Escalate(p, r2, t);
            && r'.watch.child == c.(collected := true) && r'.watch.world.os.procs == os.procs - {c.pid} && r'.killAt.Some?
            && r'.watch.world.os.log == os.log + (if Sets(r.killAt, r'.killAt) then Signals(os, c, Kill) else [])
            && (r'.done <==> os.GroupGone(c.pid) || t.Last() - r'.killAt.value >= p.reap)
  {
    var os, c := r.watch.world.os, r.watch.child;
    QuietExit(r, t);
    var r1 := OnExit(Noted(r, t), t.now);
    var r2 := r1.(watch := Cleaned(r1.watch).0);
    CleanedPasses(r1.watch);
    SendsNothing(r2.watch);
    EscalateForm(p, r2, t);
    EscalateDone(p, r2, t);
    WithoutZombie(os, r1.watch.world.os, c.pid, c.pid);
    assert Cleaned(r1.watch).1 <==> os.GroupGone(c.pid);
    assert Cleaned(r1.watch).0.world.os.procs == r1.watch.world.os.procs;
    hide OnExit, Send, Escalate, OS.GroupGone, Signals, Cleaned;
  }

  lemma QuietLeader(p: Policy, r: Run, t: Tick)
    requires !r.done && Usable(r.watch.child) && r.watch.world.script == []
    requires Held(r.watch.world.os, r.watch.child.pid, r.watch.child.family) && !r.watch.world.os.procs[r.watch.child.pid].zombie
    ensures var os, c := r.watch.world.os, r.watch.child;
            var r1 := OnExit(Noted(r, t), t.now);
            var r' := Escalate(p, r1.(watch := Cleaned(r1.watch).0), t);
            && !Cleaned(r1.watch).1 && r'.watch.child == c && r'.watch.world.os.procs == os.procs
            && r'.watch.world.os.log
               == os.log + (if Sets(r.stopAt, r'.stopAt) then Signals(os, c, Terminate) else [])
                  + (if Sets(r.killAt, r'.killAt) then Signals(os, c, Kill) else [])
            && (r'.done <==> r'.killAt.Some? && t.Last() - r'.killAt.value >= p.reap)
  {
    var os, c := r.watch.world.os, r.watch.child;
    var r1 := OnExit(Noted(r, t), t.now);
    assert r1 == Noted(r, t);
    CleanedPasses(r1.watch);
    QuietSend(r.watch, Terminate);
    QuietSend(r.watch, Kill);
    QuietSend(Send(r.watch, Terminate), Kill);
    EscalateForm(p, Noted(r, t), t);
    EscalateDone(p, Noted(r, t), t);
    SameSignals(os, Send(r.watch, Terminate).world.os, c, Kill);
    hide OnExit, Send, Escalate, Signals, Cleaned;
  }

  lemma SameSignals(os: OS, os': OS, c: Child, kind: Kind)
    ensures os'.procs == os.procs ==> Signals(os', c, kind) == Signals(os, c, kind)
  {
    if os'.procs == os.procs { assert os'.Members(c.pid) == os.Members(c.pid); }
  }

  lemma EscalateDone(p: Policy, r: Run, t: Tick)
    requires !r.done
    ensures var r' := Escalate(p, r, t); r'.done <==> r'.killAt.Some? && t.Last() - r'.killAt.value >= p.reap
  {
    hide Send;
  }

  lemma WithoutZombie(os: OS, os': OS, pid: nat, group: nat)
    requires pid in os.procs && os.procs[pid].zombie && os'.procs == os.procs - {pid}
    ensures os.GroupGone(group) <==> os'.GroupGone(group)
  {
    if os'.GroupGone(group) {
      forall q | q in os.procs && os.procs[q].group == group ensures os.procs[q].zombie {
        if q != pid { assert q in os'.procs && os'.procs[q] == os.procs[q]; }
      }
    }
  }

  lemma QuietSend(x: Watch, kind: Kind)
    requires x.world.script == []
    ensures var y := Send(x, kind);
            && y.child == x.child && y.world.script == [] && y.world.os.procs == x.world.os.procs
            && (Usable(x.child) ==> y.world.os.log == x.world.os.log + Signals(x.world.os, x.child, kind))
  {
  }

  lemma QuietExit(r: Run, t: Tick)
    requires Usable(r.watch.child) && r.watch.world.script == []
    requires Held(r.watch.world.os, r.watch.child.pid, r.watch.child.family)
    requires r.watch.world.os.procs[r.watch.child.pid].zombie
    ensures var r', os, c := OnExit(Noted(r, t), t.now), r.watch.world.os, r.watch.child;
            && r'.watch.child == c.(collected := true) && r'.watch.world.script == []
            && r'.watch.world.os.procs == os.procs - {c.pid} && r'.killAt.Some? && r'.done == r.done
            && r'.watch.world.os.log == os.log + (if Sets(r.killAt, r'.killAt) then Signals(os, c, Kill) else [])
  {
    QuietSend(r.watch, Kill);
    hide Send, Signals;
  }

  /** A retained child in the same quiet: the next poll reopens admission exactly if the leader has
      exited and its group is empty. */
  lemma QuietPoll(p: Policy, a: Actor)
    requires a.pending.Some? && !a.pending.value.lost && a.active && a.world.script == []
    requires !a.pending.value.collected ==> Held(a.world.os, a.pending.value.pid, a.pending.value.family)
    ensures var os, c, a' := a.world.os, a.pending.value, Do(p, a, Poll);
            && (a'.active <==> !((c.collected || os.procs[c.pid].zombie) && os.GroupGone(c.pid)))
            && (a'.pending.Some? <==> a'.active)
            && a'.world.os.procs == (if !c.collected && os.procs[c.pid].zombie then os.procs - {c.pid} else os.procs)
  {
    var os, c := a.world.os, a.pending.value;
    var x := ReapIfExited(Watch(a.world, c));
    if !c.collected && os.procs[c.pid].zombie { WithoutZombie(os, x.world.os, c.pid, c.pid); }
  }

  // ---------- what the calls mean ----------

  /** Looking for an exit changes nothing. It is seen exactly if the leader is a zombie of ours, and the
      identity is lost exactly if the leader is no child of ours; an interrupted call shows neither. */
  lemma ExitIsRight(x: Watch)
    ensures var (y, exited) := Exited(x);
            var w := x.world.Pause();
            if !Usable(x.child) then y == x && exited == x.child.collected
            else
              var ours := x.child.pid in w.os.procs && w.os.procs[x.child.pid].ours;
              && y.world == w && SameProcess(x.child, y.child) && !y.child.collected
              && (exited <==> !x.world.Interrupted() && ours && w.os.procs[x.child.pid].zombie)
              && (y.child.lost <==> !x.world.Interrupted() && !ours)
  {
  }

  /** Collecting takes a zombie of ours, seen twice, from the table. */
  lemma ReapIsRight(x: Watch)
    requires Usable(x.child)
    ensures var y := ReapIfExited(x);
            var w1, w2, pid := x.world.Pause(), x.world.Pause().Pause(), x.child.pid;
            var seen := Exited(x).1;
            var ours := pid in w2.os.procs && w2.os.procs[pid].ours;
            && SameProcess(x.child, y.child)
            && (y.child.collected <==> seen && !w1.Interrupted() && ours && w2.os.procs[pid].zombie)
            && (y.child.lost <==> Exited(x).0.child.lost || (seen && !w1.Interrupted() && !ours))
            && y.world == (if y.child.collected then w2.(os := w2.os.(procs := w2.os.procs - {pid})) else if seen then w2 else w1)
  {
  }

  // ---------- why a supervision ends ----------

  /** Lost and said to have failed, or collected with an empty group, or given up after the last
      deadline. */
  predicate HasReason(p: Policy, r: Run, last: nat) {
    || (r.watch.child.lost && r.failed)
    || (r.watch.child.collected && r.watch.world.os.GroupGone(r.watch.child.pid))
    || (r.killAt.Some? && last >= r.killAt.value + p.reap)
  }

  lemma RoundHasReason(p: Policy, r: Run, t: Tick)
    requires !r.done
    ensures Round(p, r, t).done ==> HasReason(p, Round(p, r, t), t.Last())
  {
    hide Exited, Send, ReapIfExited;
  }

  /** No supervision ends before there is a reason to: i is its last round. */
  lemma {:induction false} EndHasReason(p: Policy, r: Run, ticks: seq<Tick>) returns (i: nat)
    requires !r.done
    ensures Rounds(p, r, ticks).done ==> i < |ticks| && HasReason(p, Rounds(p, r, ticks), ticks[i].Last())
    decreases |ticks|
  {
    hide Round, HasReason;
    i := 0;
    if ticks != [] {
      RoundHasReason(p, r, ticks[0]);
      var next := Round(p, r, ticks[0]);
      assert Rounds(p, r, ticks) == Rounds(p, next, ticks[1..]);
      if next.done {
        RoundsDone(p, next, ticks[1..]);
      } else {
        var j := EndHasReason(p, next, ticks[1..]);
        i := j + 1;
      }
      hide Rounds;
    }
  }

  lemma SupervisionHasReason(p: Policy, watch: Watch, failed: bool, ticks: seq<Tick>) returns (i: nat)
    ensures var r' := Rounds(p, Started(watch, failed), ticks);
            r'.done ==> i < |ticks| && HasReason(p, r', ticks[i].Last())
  {
    i := EndHasReason(p, Started(watch, failed), ticks);
    hide Rounds, HasReason;
  }
}
