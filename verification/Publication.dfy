/**
 Crash-safe publication of one image. A staged file is verified, the intent is saved in the
 job history, and an exclusive rename moves the file to its destination; a restart resolves
 whatever a crash left behind. The store's steps, foreign file operations at the destination
 and crashes interleave freely. Inode numbers may be reused once freed, so every file also
 has a serial number that the program never sees.
 */
module Publication {
  import opened Words
  import opened Wrappers

  // ---------- files ----------

  datatype File = File(ino: nat, serial: nat, bytes: seq<byte>)

  /** The three names of one request: its destination, its staged file, its staging directory.
      clutter: the directory holds other files, so rmdir fails. */
  datatype Files = Files(dest: Option<File>, staged: Option<File>, directory: bool, clutter: bool) {
    predicate Consistent() { staged.Some? ==> directory }

    predicate InUse(ino: nat) {
      (dest.Some? && dest.value.ino == ino) || (staged.Some? && staged.value.ino == ino)
    }

    /** renamex_np with RENAME_EXCL. */
    function Rename(): Option<Files> {
      if staged.Some? && dest.None? then Some(this.(dest := staged, staged := None)) else None
    }

    function RemoveEmptyDirectory(): Files {
      if staged.None? && !clutter then this.(directory := false) else this
    }

    function RemoveStaging(): Files { this.(staged := None, directory := false) }
  }

  /** What prepare records about a file it accepted. */
  datatype Receipt = Receipt(ino: nat, size: nat, sha: nat)

  /** Format validation and hashing, left abstract. */
  datatype Checks = Checks(valid: seq<byte> -> bool, sha: seq<byte> -> nat) {
    function Verify(f: Option<File>): Option<Receipt> {
      if f.Some? && f.value.bytes != [] && valid(f.value.bytes)
      then Some(Receipt(f.value.ino, |f.value.bytes|, sha(f.value.bytes)))
      else None
    }
  }

  // ---------- the store ----------

  /** The job's record in the saved history. */
  datatype Record = Active | Finalizing(receipt: Receipt) | Succeeded(receipt: Receipt) | Failed | Interrupted {
    function Claim(): Option<Receipt> {
      if Finalizing? || Succeeded? then Some(receipt) else None
    }
  }

  /** How far the running program got; a crash forgets it. */
  datatype App =
    | Down
    | Idle
    | Generating
    | Prepared(r: Receipt)
    | Durable(r: Receipt)      // finalizing is saved, staging is retained
    | Published(r: Receipt)    // renamed, success not saved
    | Unwinding                // the transaction is about to be released
    | Recovering(r: Receipt)
    | Rechecked(r: Receipt)    // recovery accepted the file at the destination
    | Ready(r: Receipt)        // recovery accepted the staged file
    | Settled(outcome: Record) // recovery decided, not saved
  {
    function Claim(): Option<Receipt> {
      if Settled? then outcome.Claim()
      else if Down? || Idle? || Generating? || Unwinding? then None
      else Some(r)
    }
  }

  /** verified: the file prepare accepted. evidence: the file at the destination when the store
      decided success. freed: the verified inode was unlinked at some time. */
  datatype World = World(fs: Files, disk: Record, app: App, serials: nat,
                         verified: Option<File>, evidence: Option<File>, freed: bool)

  datatype Step =
    | WriteStaged(ino: nat, bytes: seq<byte>)
    | Prepare
    | SaveIntent
    | Publish
    | SaveSuccess(saved: bool)
    | Throw(saved: bool)       // any failure before the rename; the failed state may not get saved
    | Release
    | Crash
    | Restart
    | Check
    | Relink
    | Tidy
    | SaveOutcome(saved: bool)
    | Fault                    // an I/O error during recovery
    | ForeignCreate(ino: nat, bytes: seq<byte>)
    | ForeignRemove
    | ForeignRewrite(bytes: seq<byte>)

  predicate Foreign(s: Step) { s.ForeignCreate? || s.ForeignRemove? || s.ForeignRewrite? }

  function IsVerified(w: World, f: Option<File>): bool {
    f.Some? && w.verified.Some? && f.value.serial == w.verified.value.serial
  }

  /** A step that is not enabled changes nothing. */
  function Apply(k: Checks, w: World, s: Step): World {
    match s
    case WriteStaged(ino, bytes) =>
      if w.app == Generating && !w.fs.InUse(ino)
      then w.(fs := w.fs.(staged := Some(File(ino, w.serials, bytes)), directory := true), serials := w.serials + 1)
      else w
    case Prepare =>
      if w.app == Generating && k.Verify(w.fs.staged).Some?
      then w.(app := Prepared(k.Verify(w.fs.staged).value), verified := w.fs.staged)
      else w
    case SaveIntent =>
      if w.app.Prepared? then w.(app := Durable(w.app.r), disk := Finalizing(w.app.r)) else w
    case Publish =>
      if w.app.Durable? && w.fs.staged == w.verified && w.fs.Rename().Some?
      then w.(app := Published(w.app.r), fs := w.fs.Rename().value, evidence := w.fs.staged)
      else w
    case SaveSuccess(saved) =>
      if w.app.Published? then w.(app := Unwinding, disk := if saved then Succeeded(w.app.r) else w.disk) else w
    case Throw(saved) =>
      if w.app.Generating? || w.app.Prepared? || w.app.Durable?
      then w.(app := Unwinding, disk := if saved then Failed else w.disk)
      else w
    case Release =>
      if w.app == Unwinding
      then w.(app := Idle, fs := w.fs.RemoveStaging(), freed := w.freed || IsVerified(w, w.fs.staged))
      else w
    case Crash => w.(app := Down)
    case Restart =>
      if w.app != Down then w
      else
        (match w.disk
         case Active => w.(app := Settled(Interrupted))
         case Finalizing(r) => w.(app := Recovering(r))
         case _ => w.(app := Idle))
    case Check =>
      if !w.app.Recovering? then w
      else if w.fs.dest.Some? then
        if w.fs.staged.None? && k.Verify(w.fs.dest) == Some(w.app.r)
        then w.(app := Rechecked(w.app.r), evidence := w.fs.dest)
        else w.(app := Settled(Failed))
      else if w.fs.directory && k.Verify(w.fs.staged) == Some(w.app.r) then w.(app := Ready(w.app.r))
      else w.(app := Settled(Failed))
    case Relink =>
      if !w.app.Ready? then w
      else if w.fs.Rename().Some?
      then w.(app := Rechecked(w.app.r), fs := w.fs.Rename().value, evidence := w.fs.staged)
      else w.(app := Settled(Failed))
    case Tidy =>
      if w.app.Rechecked?
      then w.(app := Settled(Succeeded(w.app.r)), fs := w.fs.RemoveEmptyDirectory())
      else w
    case SaveOutcome(saved) =>
      if w.app.Settled? then w.(app := Idle, disk := if saved then w.app.outcome else w.disk) else w
    case Fault =>
      if w.app.Recovering? || w.app.Ready? then w.(app := Settled(Failed)) else w
    case ForeignCreate(ino, bytes) =>
      if w.fs.dest.None? && !w.fs.InUse(ino)
      then w.(fs := w.fs.(dest := Some(File(ino, w.serials, bytes))), serials := w.serials + 1)
      else w
    case ForeignRemove =>
      w.(fs := w.fs.(dest := None), freed := w.freed || IsVerified(w, w.fs.dest))
    case ForeignRewrite(bytes) =>
      if w.fs.dest.Some? then w.(fs := w.fs.(dest := Some(w.fs.dest.value.(bytes := bytes)))) else w
  }

  function Run(k: Checks, w: World, steps: seq<Step>): World
    decreases |steps|
  {
    if steps == [] then w else Run(k, Apply(k, w, steps[0]), steps[1..])
  }

  /** The job is saved as active and its staging directory exists; the destination may be taken. */
  ghost predicate Initial(w: World) {
    && w.app == Generating && w.disk == Active
    && w.fs.staged.None? && w.fs.directory
    && w.verified.None? && w.evidence.None? && !w.freed
    && (w.fs.dest.Some? ==> w.fs.dest.value.serial < w.serials)
  }

  // ---------- what every step keeps ----------

  /** The store may have decided success on the strength of this file. */
  ghost predicate Decided(w: World) {
    w.disk.Succeeded? || w.app.Published? || w.app.Rechecked? || (w.app.Settled? && w.app.outcome.Succeeded?)
  }

  /** The verified file is staged, or linked at the destination by a rename of this job. */
  ghost predicate Linked(w: World) {
    && w.verified.Some?
    && (w.fs.staged == w.verified ||
        (w.fs.staged.None? && w.fs.dest.Some? && w.fs.dest.value.ino == w.verified.value.ino
         && w.fs.dest.value.serial == w.verified.value.serial))
  }

  ghost predicate Inv(k: Checks, w: World) {
    && w.fs.Consistent()
    && (w.fs.dest.Some? ==> w.fs.dest.value.serial < w.serials)
    && (w.fs.staged.Some? ==> w.fs.staged.value.serial < w.serials)
    && (w.verified.Some? ==> w.verified.value.serial < w.serials)
    && (w.fs.dest.Some? && w.fs.staged.Some? ==>
          w.fs.dest.value.ino != w.fs.staged.value.ino && w.fs.dest.value.serial != w.fs.staged.value.serial)
    && (w.app.Generating? ==> w.verified.None?)
    && (w.app.Claim().Some? ==> w.verified.Some? && k.Verify(w.verified) == w.app.Claim())
    && (w.disk.Claim().Some? ==> w.verified.Some? && k.Verify(w.verified) == w.disk.Claim())
    && (w.verified.Some? && !w.freed ==> Linked(w))
    && (w.freed ==> w.fs.staged.None? && w.verified.Some?)
    && (w.verified.Some? && w.fs.staged.Some? ==> w.fs.staged == w.verified)
    && (w.app.Prepared? || w.app.Durable? ==> w.fs.staged == w.verified)
    && (w.app.Durable? ==> w.disk == Finalizing(w.app.r))
    && (w.app.Settled? ==> w.app.outcome.Succeeded? || w.app.outcome.Failed? || w.app.outcome.Interrupted?)
    && (w.app.Ready? ==> w.fs.staged == w.verified)
    && (Decided(w) ==> Justified(k, w))
  }

  /** The evidence has the verified inode number, size and hash, and is the verified file
      itself unless that file's inode was freed. */
  ghost predicate Justified(k: Checks, w: World) {
    && w.verified.Some? && w.evidence.Some?
    && k.Verify(w.evidence).Some? && k.Verify(w.evidence) == k.Verify(w.verified)
    && (w.evidence.value.serial == w.verified.value.serial || w.freed)
  }

  lemma StepKeepsInv(k: Checks, w: World, s: Step)
    requires Inv(k, w)
    ensures Inv(k, Apply(k, w, s))
  {
    if Foreign(s) {
      ForeignStepKeepsInv(k, w, s);
    } else if s.Restart? || s.Check? || s.Relink? || s.Tidy? || s.SaveOutcome? || s.Fault? {
      RecoveryStepKeepsInv(k, w, s);
    } else {
      GenerationStepKeepsInv(k, w, s);
    }
  }

  lemma ForeignStepKeepsInv(k: Checks, w: World, s: Step)
    requires Inv(k, w) && Foreign(s)
    ensures Inv(k, Apply(k, w, s))
  {
  }

  lemma RecoveryStepKeepsInv(k: Checks, w: World, s: Step)
    requires Inv(k, w) && (s.Restart? || s.Check? || s.Relink? || s.Tidy? || s.SaveOutcome? || s.Fault?)
    ensures Inv(k, Apply(k, w, s))
  {
  }

  lemma GenerationStepKeepsInv(k: Checks, w: World, s: Step)
    requires Inv(k, w)
    requires s.WriteStaged? || s.Prepare? || s.SaveIntent? || s.Publish? || s.SaveSuccess? || s.Throw? || s.Release? || s.Crash?
    ensures Inv(k, Apply(k, w, s))
  {
  }

  lemma {:induction false} RunKeepsInv(k: Checks, w: World, steps: seq<Step>)
    requires Inv(k, w)
    ensures Inv(k, Run(k, w, steps))
    decreases |steps|
  {
    if steps != [] {
      StepKeepsInv(k, w, steps[0]);
      RunKeepsInv(k, Apply(k, w, steps[0]), steps[1..]);
    }
  }

  lemma InitialInv(k: Checks, w: World)
    requires Initial(w)
    ensures Inv(k, w)
  {
  }

  // ---------- safety over whole runs ----------

  /** A job is saved as succeeded only on the evidence of a file at the destination with the
      inode number, size and hash that prepare verified; that file is the verified file itself
      unless its inode was unlinked earlier. */
  lemma SuccessIsJustified(k: Checks, w: World, steps: seq<Step>)
    requires Initial(w)
    ensures
      var w' := Run(k, w, steps);
      w'.disk.Succeeded? ==>
        && w'.evidence.Some? && w'.verified.Some?
        && w'.evidence.value.ino == w'.disk.receipt.ino
        && |w'.evidence.value.bytes| == w'.disk.receipt.size
        && k.sha(w'.evidence.value.bytes) == w'.disk.receipt.sha
        && k.valid(w'.evidence.value.bytes)
        && (!w'.freed ==> w'.evidence.value.serial == w'.verified.value.serial)
  {
    InitialInv(k, w);
    RunKeepsInv(k, w, steps);
  }

  /** Evidence is always the file at the destination at the moment it is taken. */
  lemma EvidenceIsAtDestination(k: Checks, w: World, s: Step)
    requires Apply(k, w, s).evidence != w.evidence
    ensures Apply(k, w, s).evidence == Apply(k, w, s).fs.dest
  {
  }

  /** Whatever is at the destination, no run of the store's own steps, crashes and restarts
      included, replaces, changes or removes it. */
  lemma {:induction false} NeverReplaces(k: Checks, w: World, steps: seq<Step>)
    requires w.fs.dest.Some?
    requires forall s :: s in steps ==> !Foreign(s)
    ensures Run(k, w, steps).fs.dest == w.fs.dest
    decreases |steps|
  {
    if steps != [] {
      var w' := Apply(k, w, steps[0]);
      assert steps[0] in steps;
      assert forall s :: s in steps[1..] ==> s in steps;
      NeverReplaces(k, w', steps[1..]);
    }
  }

  /** Recovery never adopts a foreign file while the verified inode has stayed linked. */
  lemma ForeignFileIsNotAdopted(k: Checks, w: World)
    requires Inv(k, w) && w.app.Recovering? && w.fs.dest.Some? && !IsVerified(w, w.fs.dest)
    ensures !w.freed ==> Apply(k, w, Check).app == Settled(Failed)
  {
  }

  /** Once the verified inode was unlinked, its number can be reused: a foreign file with that
      number and the same bytes is then adopted. The restriction to unfreed inodes is exact. */
  lemma FreedInodeCanBeAdopted(k: Checks, w: World) returns (steps: seq<Step>)
    requires Inv(k, w) && w.app.Down? && w.disk.Finalizing? && w.freed
    ensures
      var w' := Run(k, w, steps);
      w'.disk == Succeeded(w.disk.receipt) && w'.evidence.Some? && !IsVerified(w', w'.evidence)
  {
    var f := w.verified.value;
    steps := [ForeignRemove, ForeignCreate(f.ino, f.bytes), Restart, Check, Tidy, SaveOutcome(true)];
    var w1 := Apply(k, w, steps[0]);
    var w2 := Apply(k, w1, steps[1]);
    assert w2.fs.dest == Some(File(f.ino, w.serials, f.bytes));
    assert k.Verify(w2.fs.dest) == Some(w.disk.receipt);
    var w3 := Apply(k, w2, Restart);
    var w4 := Apply(k, w3, Check);
    assert w4.app.Rechecked?;
    var w5 := Apply(k, w4, Tidy);
    var w6 := Apply(k, w5, SaveOutcome(true));
    RunSix(k, w, steps);
  }

  /** Such states are reached: the image is published, the program dies before success is saved, and
      the user deletes the image. */
  lemma FreedIsReached(k: Checks, w: World, ino: nat, bytes: seq<byte>) returns (steps: seq<Step>)
    requires Initial(w) && w.fs.dest.None? && bytes != [] && k.valid(bytes)
    ensures var w' := Run(k, w, steps);
            Inv(k, w') && w'.app.Down? && w'.disk.Finalizing? && w'.freed
  {
    steps := [WriteStaged(ino, bytes), Prepare, SaveIntent, Publish, Crash, ForeignRemove];
    InitialInv(k, w);
    RunKeepsInv(k, w, steps);
    var w1 := Apply(k, w, steps[0]);
    assert w1.fs.staged == Some(File(ino, w.serials, bytes));
    var w2 := Apply(k, w1, steps[1]);
    assert w2.app.Prepared? && w2.verified == w1.fs.staged && w2.fs == w1.fs;
    var w3 := Apply(k, w2, steps[2]);
    assert w3.app.Durable? && w3.disk.Finalizing?;
    var w4 := Apply(k, w3, steps[3]);
    assert w4.app.Published? && w4.fs.dest == w4.verified;
    RunSix(k, w, steps);
    hide Inv, Run;
  }

  /** From the beginning of a job: a foreign copy of the image is taken for the image. */
  lemma ForeignCopyIsAdopted(k: Checks, w: World, ino: nat, bytes: seq<byte>) returns (steps: seq<Step>)
    requires Initial(w) && w.fs.dest.None? && bytes != [] && k.valid(bytes)
    ensures var w' := Run(k, w, steps);
            w'.disk.Succeeded? && w'.evidence.Some? && !IsVerified(w', w'.evidence)
  {
    var first := FreedIsReached(k, w, ino, bytes);
    hide Run, Apply, Inv;
    var second := FreedInodeCanBeAdopted(k, Run(k, w, first));
    RunConcat(k, w, first, second);
    steps := first + second;
  }

  lemma {:induction false} RunConcat(k: Checks, w: World, a: seq<Step>, b: seq<Step>)
    ensures Run(k, w, a + b) == Run(k, Run(k, w, a), b)
    decreases |a|
  {
    hide Apply;
    if a == [] {
      assert a + b == b;
    } else {
      assert (a + b)[0] == a[0] && (a + b)[1..] == a[1..] + b;
      RunConcat(k, Apply(k, w, a[0]), a[1..], b);
    }
  }

  lemma RunSix(k: Checks, w: World, s: seq<Step>)
    requires |s| == 6
    ensures Run(k, w, s) ==
            Apply(k, Apply(k, Apply(k, Apply(k, Apply(k, Apply(k, w, s[0]), s[1]), s[2]), s[3]), s[4]), s[5])
  {
    var w1 := Apply(k, w, s[0]);
    var w2 := Apply(k, w1, s[1]);
    RunCons(k, w, s);
    RunCons(k, w1, s[1..]);
    var t := s[1..][1..];
    assert t == [s[2], s[3], s[4], s[5]];
    RunCons(k, w2, t);
    RunCons(k, Apply(k, w2, s[2]), t[1..]);
    assert t[1..][1..] == [s[4], s[5]];
    RunCons(k, Apply(k, Apply(k, w2, s[2]), s[3]), [s[4], s[5]]);
    assert [s[4], s[5]][1..] == [s[5]] && [s[5]][1..] == [];
  }

  lemma RunCons(k: Checks, w: World, s: seq<Step>)
    requires s != []
    ensures Run(k, w, s) == Run(k, Apply(k, w, s[0]), s[1..])
  {
  }

  // ---------- recovery ----------

  /** One undisturbed restart, in closed form. */
  function Recover(k: Checks, w: World): World {
    var w0 := Apply(k, w, Crash);
    var w1 := Apply(k, w0, Restart);
    var w2 := Apply(k, w1, Check);
    var w3 := Apply(k, w2, Relink);
    var w4 := Apply(k, w3, Tidy);
    Apply(k, w4, SaveOutcome(true))
  }

  /** A restart that is cut off after n of its steps. */
  function Attempt(k: Checks, w: World, n: nat): World {
    var w0 := Apply(k, w, Crash);
    var w1 := if n < 1 then w0 else Apply(k, w0, Restart);
    var w2 := if n < 2 then w1 else Apply(k, w1, Check);
    var w3 := if n < 3 then w2 else Apply(k, w2, Relink);
    var w4 := if n < 4 then w3 else Apply(k, w3, Tidy);
    if n < 5 then w4 else Apply(k, w4, SaveOutcome(true))
  }

  function Attempts(k: Checks, w: World, ns: seq<nat>): World
    decreases |ns|
  {
    if ns == [] then w else Attempts(k, Attempt(k, w, ns[0]), ns[1..])
  }

  /** The file a recovery would accept for receipt r: the one at the destination if the staged
      name is gone, otherwise the staged one if the destination is free. */
  function Acceptable(k: Checks, fs: Files, r: Receipt): Option<File> {
    if fs.dest.Some? then
      if fs.staged.None? && k.Verify(fs.dest) == Some(r) then fs.dest else None
    else
      if fs.directory && k.Verify(fs.staged) == Some(r) then fs.staged else None
  }

  /** Recovery saves success exactly when an acceptable file exists, and then that file is at
      the destination and the staging directory is gone unless something else is in it; otherwise the
      files are untouched. */
  lemma RecoverOutcome(k: Checks, w: World)
    ensures
      Recover(k, w) ==
      match w.disk
      case Active => w.(app := Idle, disk := Interrupted)
      case Finalizing(r) =>
        var f := Acceptable(k, w.fs, r);
        if f.Some?
        then w.(app := Idle, disk := Succeeded(r), evidence := f,
                fs := w.fs.(dest := f, staged := None, directory := w.fs.directory && w.fs.clutter))
        else w.(app := Idle, disk := Failed)
      case _ => w.(app := Idle)
  {
  }

  /** A cut-off restart saved nothing; at most it moved the acceptable file into place. */
  lemma CutAttempt(k: Checks, w: World, n: nat)
    requires n < 5
    ensures
      var w' := Attempt(k, w, n);
      && w'.disk == w.disk
      && w' == w.(app := w'.app, fs := w'.fs, evidence := w'.evidence)
      && if w.disk.Finalizing? && Acceptable(k, w.fs, w.disk.receipt).Some? && n >= 2 then
           var f := Acceptable(k, w.fs, w.disk.receipt);
           var moved := w.fs.(dest := f, staged := None);
           w'.fs == w.fs || (w'.evidence == f && (w'.fs == moved || w'.fs == moved.RemoveEmptyDirectory()))
         else
           w'.fs == w.fs && w'.evidence == w.evidence
  {
  }

  lemma AttemptThenRecover(k: Checks, w: World, n: nat)
    requires w.fs.Consistent()
    ensures Recover(k, Attempt(k, w, n)) == Recover(k, w)
    ensures Attempt(k, w, n).fs.Consistent()
  {
    var w' := Attempt(k, w, n);
    RecoverOutcome(k, w);
    RecoverOutcome(k, w');
    if n < 5 {
      CutAttempt(k, w, n);
    } else {
      assert w' == Recover(k, w);
    }
  }

  /** However many restarts crash, and wherever, the next one that completes leaves the files
      and the history exactly as if it had been the first. */
  lemma {:induction false} RecoveryIsIdempotent(k: Checks, w: World, ns: seq<nat>)
    requires w.fs.Consistent()
    ensures Recover(k, Attempts(k, w, ns)) == Recover(k, w)
    decreases |ns|
  {
    if ns != [] {
      AttemptThenRecover(k, w, ns[0]);
      RecoveryIsIdempotent(k, Attempt(k, w, ns[0]), ns[1..]);
    }
  }

  /** A crash before the rename is repaired too: the staged file is still there, and the next
      recovery publishes it if the destination is free, and refuses if it is not. */
  lemma RecoveryFinishesThePublication(k: Checks, w: World)
    requires Inv(k, w) && w.disk.Finalizing? && w.fs.staged == w.verified
    ensures
      var w' := Recover(k, w);
      if w.fs.dest.None?
      then w'.disk == Succeeded(w.disk.receipt) && w'.fs.dest == w.verified
      else w'.disk == Failed && w'.fs.dest == w.fs.dest
  {
  }

  /** The rename happened, nobody touched the destination since, and success is at worst unsaved. */
  ghost predicate Done(w: World) {
    && w.verified.Some? && w.fs.dest == w.verified && w.fs.staged.None?
    && (w.disk.Finalizing? || w.disk.Succeeded?)
    && !w.app.Generating? && !w.app.Prepared? && !w.app.Durable? && !w.app.Ready?
    && (w.app.Settled? ==> w.app.outcome.Succeeded?)
  }

  /** From the rename on, through any number of crashes and restarts, the next undisturbed
      recovery saves success, and the destination keeps the verified file. */
  lemma {:induction false} RenameIsNeverLost(k: Checks, w: World, steps: seq<Step>)
    requires Inv(k, w) && Done(w)
    requires forall s :: s in steps ==> !Foreign(s) && !s.Fault?
    ensures
      var w' := Run(k, w, steps);
      Done(w') && Recover(k, w').disk.Succeeded? && Recover(k, w').fs.dest == w.verified
    decreases |steps|
  {
    if steps != [] {
      var w' := Apply(k, w, steps[0]);
      StepKeepsInv(k, w, steps[0]);
      DoneStaysDone(k, w, steps[0]);
      assert forall s :: s in steps[1..] ==> s in steps;
      RenameIsNeverLost(k, w', steps[1..]);
    }
  }

  lemma DoneStaysDone(k: Checks, w: World, s: Step)
    requires Inv(k, w) && Done(w) && !Foreign(s) && !s.Fault?
    ensures Done(Apply(k, w, s)) && Apply(k, w, s).verified == w.verified
  {
  }

  /** The rename step itself leaves such a state. */
  lemma PublishIsDone(k: Checks, w: World)
    requires Inv(k, w) && w.app.Durable? && Apply(k, w, Publish).app.Published?
    ensures Done(Apply(k, w, Publish)) && w.fs.dest.None? && Apply(k, w, Publish).fs.dest == w.verified
  {
  }

  /** So does the rename that a recovery makes. */
  lemma RelinkIsDone(k: Checks, w: World)
    requires Inv(k, w) && w.disk.Finalizing? && Apply(k, w, Relink).app.Rechecked? && w.app.Ready?
    ensures Done(Apply(k, w, Relink)) && w.fs.dest.None? && Apply(k, w, Relink).fs.dest == w.verified
  {
  }

  // ---------- the transaction object ----------

  class Volume {
    var dest: Option<File>
    var staged: Option<File>
    var directory: bool
    const clutter: bool

    constructor (clutter: bool)
      ensures dest.None? && staged.None? && directory && this.clutter == clutter
    {
      dest, staged, directory := None, None, true;
      this.clutter := clutter;
    }

    function Snapshot(): Files
      reads this
    {
      Files(dest, staged, directory, clutter)
    }

    /** renamex_np(staged, dest, RENAME_EXCL) */
    method RenameExclusive() returns (ok: bool)
      modifies this
      ensures ok <==> old(Snapshot()).Rename().Some?
      ensures Snapshot() == if ok then old(Snapshot()).Rename().value else old(Snapshot())
    {
      if staged.None? || dest.Some? {
        return false;
      }
      dest, staged := staged, None;
      ok := true;
    }
  }

  class Transaction {
    const volume: Volume
    const ownsDirectory: bool
    const atDestination: bool  // a recovery that checks the destination itself
    var verified: Option<File>
    var published: bool
    var preserveForRecovery: bool

    constructor (volume: Volume, ownsDirectory: bool, atDestination: bool)
      ensures this.volume == volume && this.ownsDirectory == ownsDirectory && this.atDestination == atDestination
      ensures verified.None? && !published && !preserveForRecovery
    {
      this.volume, this.ownsDirectory, this.atDestination := volume, ownsDirectory, atDestination;
      verified, published, preserveForRecovery := None, false, false;
    }

    function Current(): Option<File>
      reads volume
    {
      if atDestination then volume.dest else volume.staged
    }

    method Prepare(k: Checks) returns (r: Option<Receipt>)
      modifies this
      ensures volume.Snapshot() == old(volume.Snapshot())
      ensures published == old(published) && preserveForRecovery == old(preserveForRecovery)
      ensures r == if old(verified).None? && !old(published) then k.Verify(Current()) else None
      ensures verified == if r.Some? then Current() else old(verified)
    {
      if verified.Some? || published {
        return None;
      }
      var before := Current();
      r := k.Verify(before);
      if r.Some? {
        verified := before;
      }
    }

    method Publish() returns (ok: bool)
      requires !atDestination
      modifies this, volume
      ensures verified == old(verified) && preserveForRecovery == old(preserveForRecovery)
      ensures ok <==> !old(published) && old(verified).Some? && old(volume.staged) == old(verified)
                      && old(volume.Snapshot()).Rename().Some?
      ensures published == (old(published) || ok)
      ensures volume.Snapshot() == if ok then old(volume.Snapshot()).Rename().value else old(volume.Snapshot())
    {
      if published || verified.None? || volume.staged != verified {
        return false;
      }
      ok := volume.RenameExclusive();
      if ok {
        published := true;
      }
    }

    /** deinit */
    method Release()
      modifies volume
      ensures volume.Snapshot() ==
              if ownsDirectory && (!preserveForRecovery || published) then old(volume.Snapshot()).RemoveStaging()
              else old(volume.Snapshot())
    {
      if ownsDirectory && (!preserveForRecovery || published) {
        volume.staged := None;
        volume.directory := false;
      }
    }
  }

  /** Recovery of one finalizing record, as the program runs it: the files it leaves and its
      verdict are those of the three recovery steps. */
  method RecoverFinalizing(volume: Volume, k: Checks, r: Receipt, ghost w: World) returns (ok: bool)
    requires w.fs == volume.Snapshot() && w.app == Recovering(r) && w.fs.Consistent()
    modifies volume
    ensures
      var w' := Apply(k, Apply(k, Apply(k, w, Check), Relink), Tidy);
      volume.Snapshot() == w'.fs && w'.app == Settled(if ok then Succeeded(r) else Failed)
  {
    var targetExists := volume.dest.Some?;
    if targetExists {
      if volume.staged.Some? {
        return false;
      }
    } else if !volume.directory {
      return false;
    }
    var transaction := new Transaction(volume, false, targetExists);
    var checked := transaction.Prepare(k);
    if checked != Some(r) {
      return false;
    }
    if !targetExists {
      var renamed := transaction.Publish();
      assert renamed;
    }
    if volume.staged.None? && !volume.clutter {
      volume.directory := false;
    }
    ok := true;
  }

  /** The order in which the generating program takes its steps, given what gets cancelled or saved. */
  function Schedule(cancelled: bool, intentSaved: bool, finalSaved: bool, failureSaved: bool): seq<Step> {
    if cancelled || !intentSaved then [Prepare, Throw(failureSaved), Release]
    else [Prepare, SaveIntent, Publish, SaveSuccess(finalSaved), Throw(failureSaved), Release]
  }

  /** The finalization of a generated image with its error path: intent before rename, success
      after it, and no failure recorded once the rename happened. */
  method FinalizeImage(volume: Volume, k: Checks, cancelled: bool, intentSaved: bool, finalSaved: bool,
                       failureSaved: bool, ghost w: World) returns (disk: Record)
    requires w.fs == volume.Snapshot() && w.app == Generating && w.disk == Active && w.verified.None?
    modifies volume
    ensures
      var w' := Run(k, w, Schedule(cancelled, intentSaved, finalSaved, failureSaved));
      volume.Snapshot() == w'.fs && disk == w'.disk && w'.app == Idle
  {
    var transaction := new Transaction(volume, true, false);
    disk := Active;
    var result := transaction.Prepare(k);
    var succeeded := false;
    if result.Some? && !cancelled && intentSaved {
      disk := Finalizing(result.value);
      transaction.preserveForRecovery := true;
      var renamed := transaction.Publish();
      if renamed && finalSaved {
        disk := Succeeded(result.value);
        succeeded := true;
      }
    }
    if !succeeded && !transaction.published {
      transaction.preserveForRecovery := false;
      if failureSaved {
        disk := Failed;
      }
    }
    transaction.Release();
    hide Run, Apply;
    ScheduleOutcome(k, w, cancelled, intentSaved, finalSaved, failureSaved);
  }

  /** What one schedule leaves, step by step. */
  lemma ScheduleOutcome(k: Checks, w: World, cancelled: bool, intentSaved: bool, finalSaved: bool, failureSaved: bool)
    requires w.app == Generating && w.disk == Active && w.verified.None?
    ensures
      var w' := Run(k, w, Schedule(cancelled, intentSaved, finalSaved, failureSaved));
      var receipt := k.Verify(w.fs.staged);
      var durable := receipt.Some? && !cancelled && intentSaved;
      var renamed := durable && w.fs.dest.None?;
      && w'.app == Idle
      && w'.fs.dest == (if renamed then w.fs.staged else w.fs.dest) && w'.fs.staged.None? && !w'.fs.directory
      && w'.fs.clutter == w.fs.clutter
      && w'.disk == if renamed then (if finalSaved then Succeeded(receipt.value) else Finalizing(receipt.value))
                    else if failureSaved then Failed
                    else if durable then Finalizing(receipt.value) else Active
  {
    var steps := Schedule(cancelled, intentSaved, finalSaved, failureSaved);
    hide Run;
    if cancelled || !intentSaved {
      RunThree(k, w, steps);
    } else {
      RunSix(k, w, steps);
    }
  }

  lemma RunThree(k: Checks, w: World, s: seq<Step>)
    requires |s| == 3
    ensures Run(k, w, s) == Apply(k, Apply(k, Apply(k, w, s[0]), s[1]), s[2])
  {
    RunCons(k, w, s);
    RunCons(k, Apply(k, w, s[0]), s[1..]);
    assert s[1..][1..] == [s[2]] && [s[2]][1..] == [];
  }
}
