/**
 Moving the results of finished jobs to the trash: the selection is checked first, the history is
 saved once, and a failure moves the files back.
 */
module TrashOutputs {
  import opened Ordering
  import opened Wrappers

  type Path = string
  type Id = nat

  /** What a file is: its identity with its content. */
  type File = nat

  /** A file in the bin, with the place it came from. */
  datatype Trashed = Trashed(origin: Path, file: File)

  datatype State = Succeeded | Ended | Active

  /** output: the resolved path of the result. */
  datatype Job = Job(id: Id, state: State, output: Path, deleted: bool) {
    predicate HasOutput() { state.Succeeded? && !deleted }
    predicate Terminal() { !state.Active? }
  }

  /** Trashing one file. unreported: it worked, but without telling where the file went. */
  datatype Move = Failed | Reported | Unreported

  /** What the system does when asked. */
  datatype System = System(trash: Path -> Move, restore: Path -> bool, save: bool, saveAgain: bool)

  datatype Failure = NotDeletable | NotMoved | NotSaved

  function MarkAt(jobs: seq<Job>, paths: set<Path>, all: bool): (r: seq<Job>)
    ensures |r| == |jobs|
    ensures forall i :: 0 <= i < |jobs| ==>
              r[i] == if jobs[i].output in paths && (all || jobs[i].HasOutput()) then jobs[i].(deleted := true) else jobs[i]
  {
    seq(|jobs|, i requires 0 <= i < |jobs| =>
      if jobs[i].output in paths && (all || jobs[i].HasOutput()) then jobs[i].(deleted := true) else jobs[i])
  }

  /** What may be trashed: a finished result inside the program's own directory that no running job reads. */
  datatype Guard = Guard(busy: bool, active: Option<Id>, managed: Path -> bool, reading: set<Path>)

  function Find(jobs: seq<Job>, id: Id): (i: Option<nat>)
    ensures i.Some? ==> i.value < |jobs| && jobs[i.value].id == id
  {
    if jobs == [] then None
    else if jobs[0].id == id then Some(0)
    else var i := Find(jobs[1..], id); if i.Some? then Some(i.value + 1) else None
  }

  predicate Deletable(jobs: seq<Job>, guard: Guard, id: Id) {
    var i := Find(jobs, id);
    && !guard.busy && i.Some? && jobs[i.value].HasOutput() && jobs[i.value].Terminal() && guard.active != Some(id)
    && guard.managed(jobs[i.value].output) && jobs[i.value].output !in guard.reading
  }

  /** The distinct results of a selection. */
  function Paths(jobs: seq<Job>, ids: set<Id>): set<Path> {
    set id | id in ids && Find(jobs, id).Some? :: jobs[Find(jobs, id).value].output
  }

  predicate Selectable(jobs: seq<Job>, guard: Guard, ids: set<Id>) {
    forall id :: id in ids ==> Deletable(jobs, guard, id)
  }

  /** Every job has an identifier of its own. */
  ghost predicate DistinctIds(jobs: seq<Job>) { forall i, j :: 0 <= i < j < |jobs| ==> jobs[i].id != jobs[j].id }

  /** A record that may be trashed: a result that is still there, in the program's own directory, not of
      the job that runs, and not read by anybody. */
  predicate Free(job: Job, guard: Guard) {
    && job.state == Succeeded && !job.deleted && guard.active != Some(job.id)
    && guard.managed(job.output) && job.output !in guard.reading
  }

  lemma {:induction false} FindIsIndex(jobs: seq<Job>, id: Id)
    requires DistinctIds(jobs)
    ensures Find(jobs, id).None? ==> forall i :: 0 <= i < |jobs| ==> jobs[i].id != id
    ensures forall i :: 0 <= i < |jobs| && jobs[i].id == id ==> Find(jobs, id) == Some(i)
  {
    if jobs != [] {
      FindIsIndex(jobs[1..], id);
      assert forall i :: 0 < i < |jobs| ==> jobs[i] == jobs[1..][i - 1];
    }
  }

  /** A selection is deletable exactly if the program is idle and each identifier is that of a free
      record; then its paths are those of these records. */
  lemma SelectableMeans(jobs: seq<Job>, guard: Guard, ids: set<Id>)
    requires DistinctIds(jobs)
    ensures Selectable(jobs, guard, ids) <==>
              (ids != {} ==> !guard.busy)
              && forall id :: id in ids ==> exists i :: 0 <= i < |jobs| && jobs[i].id == id && Free(jobs[i], guard)
    ensures forall path :: path in Paths(jobs, ids) <==>
              exists i :: 0 <= i < |jobs| && jobs[i].id in ids && jobs[i].output == path
  {
    forall id | id in ids
      ensures Deletable(jobs, guard, id) <==>
                !guard.busy && exists i :: 0 <= i < |jobs| && jobs[i].id == id && Free(jobs[i], guard)
    {
      FindIsIndex(jobs, id);
    }
    forall path
      ensures path in Paths(jobs, ids) <==> exists i :: 0 <= i < |jobs| && jobs[i].id in ids && jobs[i].output == path
    {
      if path in Paths(jobs, ids) {
        var id :| id in ids && Find(jobs, id).Some? && jobs[Find(jobs, id).value].output == path;
        assert jobs[Find(jobs, id).value].id in ids;
      }
      if i :| 0 <= i < |jobs| && jobs[i].id in ids && jobs[i].output == path {
        FindIsIndex(jobs, jobs[i].id);
      }
    }
    hide Find, Free;
  }

  /** A trashed file: where it was and, if told, where it went. */
  datatype Moved = Moved(path: Path, slot: nat)

  class Store {
    var jobs: seq<Job>
    var saved: seq<Job>
    var files: map<Path, File>
    var bin: map<nat, Trashed>
    var slots: nat

    ghost predicate Valid()
      reads this
    {
      forall s :: s in bin ==> s < slots
    }

    constructor (jobs: seq<Job>, files: map<Path, File>)
      ensures Valid() && this.jobs == jobs && saved == jobs && this.files == files && bin == map[] && slots == 0
    {
      this.jobs, saved, this.files, bin, slots := jobs, jobs, files, map[], 0;
    }

    method TrashItem(path: Path, move: Move) returns (slot: Option<nat>)
      requires Valid() && path in files && !move.Failed?
      modifies this`files, this`bin, this`slots
      ensures Valid() && slots == old(slots) + 1 && old(slots) !in old(bin)
      ensures files == old(files) - {path} && bin == old(bin)[old(slots) := Trashed(path, old(files)[path])]
      ensures slot == if move.Reported? then Some(old(slots)) else None
    {
      bin := bin[slots := Trashed(path, files[path])];
      files := files - {path};
      slot := if move.Reported? then Some(slots) else None;
      slots := slots + 1;
    }

    /** Moves the files in the order of their paths until one cannot be moved. */
    method TrashAll(paths: set<Path>, trash: Path -> Move) returns (ok: bool, moved: seq<Moved>)
      requires Valid()
      modifies this`files, this`bin, this`slots
      ensures Valid()
      ensures ok <==> forall path :: path in paths && path in old(files) ==> !trash(path).Failed?
      ensures var trashed := Reached(paths * old(files).Keys, trash);
              files == old(files) - trashed && MovedOut(old(files), old(bin), bin, moved, Told(trashed, trash))
      ensures Conserved(old(files), files, bin)
    {
      ghost var existing := paths * files.Keys;
      var left := paths * files.Keys;
      ghost var trashed: set<Path> := {};
      moved := [];
      while left != {}
        invariant Valid() && old(slots) <= slots
        invariant existing == paths * old(files).Keys && Halfway(existing, trashed, left, trash)
        invariant files == old(files) - trashed
        invariant MovedOut(old(files), old(bin), bin, moved, Told(trashed, trash))
        invariant Conserved(old(files), files, bin)
      {
        ghost var least := LeastExists(left);
        var path :| IsLeast(path, left);
        NextPath(existing, trashed, left, trash, path);
        hide MovedOut, Conserved, Told, PathsOf, Halfway, IsLeast;
        if trash(path).Failed? { return false, moved; }
        ghost var before := bin;
        ghost var filesBefore := files;
        assert path in files;
        var slot := TrashItem(path, trash(path));
        BinGrows(old(files), filesBefore, files, before, bin, path, slots - 1);
        ToldGrows(trashed, trash, path);
        MovedOutGrows(old(files), old(bin), before, bin, moved, Told(trashed, trash), path, slots - 1);
        if slot.Some? { moved := moved + [Moved(path, slot.value)]; }
        trashed := trashed + {path};
        left := left - {path};
      }
      LastPath(existing, trashed, trash);
      return true, moved;
    }

    /** Moves the files back, the last one first. */
    method RestoreAll(moved: seq<Moved>, restore: Path -> bool, ghost files0: map<Path, File>, ghost bin0: map<nat, Trashed>,
                      ghost told: set<Path>)
      returns (unrestored: set<Path>)
      requires Valid() && MovedOut(files0, bin0, bin, moved, told) && told !! files.Keys
      requires Conserved(files0, files, bin)
      requires SameFiles(files0, files)
      modifies this`files, this`bin
      ensures Valid()
      ensures unrestored == Kept(told, restore)
      ensures files.Keys == old(files).Keys + (told - unrestored)
      ensures SameFiles(files0, files) && Conserved(files0, files, bin)
    {
      unrestored := {};
      var i := |moved|;
      assert moved[..i] == moved && PathsOf(moved[i..]) == {};
      hide *;
      while i > 0
        invariant 0 <= i <= |moved| && Valid() && SameFiles(files0, files) && Conserved(files0, files, bin)
        invariant Restoring(files0, bin0, old(files).Keys, files, bin, moved, i, restore, unrestored)
      {
        i := i - 1;
        NextMove(files0, bin0, old(files).Keys, files, bin, moved, i, restore, unrestored);
        var back := RestoreOne(moved[i], restore, files0);
        if !back { unrestored := unrestored + {moved[i].path}; }
      }
      AllMoved(files0, bin0, old(files).Keys, files, old(bin), bin, moved, told, restore, unrestored);
    }

    method RestoreOne(move: Moved, restore: Path -> bool, ghost files0: map<Path, File>) returns (back: bool)
      requires Valid() && move.path in files0 && move.slot in bin && bin[move.slot] == Trashed(move.path, files0[move.path])
      requires SameFiles(files0, files) && Conserved(files0, files, bin)
      modifies this`files, this`bin
      ensures Valid() && back == restore(move.path)
      ensures back ==> files == old(files)[move.path := files0[move.path]] && bin == old(bin) - {move.slot}
      ensures !back ==> files == old(files) && bin == old(bin)
      ensures SameFiles(files0, files) && Conserved(files0, files, bin)
    {
      back := restore(move.path);
      if back {
        RestoreConserves(files0, files, bin, move);
        files := files[move.path := bin[move.slot].file];
        bin := bin - {move.slot};
      }
    }

    method Trash(ids: set<Id>, guard: Guard, system: System)
      returns (r: Result<seq<Moved>, Failure>)
      requires Valid()
      modifies this
      ensures Valid()
      // What comes out is decided by the selection, the moves and the first save, in this order.
      ensures r == Err(NotDeletable) <==> !Selectable(old(jobs), guard, ids)
      ensures r == Err(NotMoved) <==>
                Selectable(old(jobs), guard, ids) && !CanMove(Paths(old(jobs), ids), old(files), system)
      ensures r == Err(NotSaved) <==>
                && Selectable(old(jobs), guard, ids) && CanMove(Paths(old(jobs), ids), old(files), system)
                && !system.save && ids != {}
      // A selection that is not deletable changes nothing.
      ensures r == Err(NotDeletable) ==> unchanged(this)
      // Success: exactly the records with output at selected paths are marked.
      ensures r.Ok? ==>
                && files == old(files) - Paths(old(jobs), ids)
                && jobs == MarkAt(old(jobs), Paths(old(jobs), ids), false)
                && (ids != {} ==> saved == jobs)
                && PathsOf(r.value) == Told(Paths(old(jobs), ids) * old(files).Keys, system.trash)
      // Failure: every file whose new place is known and that could be moved back is back.
      ensures r.Err? && r.error != NotDeletable ==> Undone(old(jobs), old(saved), old(files), Paths(old(jobs), ids), system)
      // No file is lost.
      ensures Conserved(old(files), files, bin)
    {
      if ids == {} {
        assert Paths(jobs, ids) == {} && PathsOf([]) == {};
        return Ok([]);
      }
      if exists id :: id in ids && !Deletable(jobs, guard, id) { return Err(NotDeletable); }
      r := TrashPaths(Paths(jobs, ids), system);
    }

    /** The selected paths, once the selection is known to be deletable. */
    method TrashPaths(paths: set<Path>, system: System) returns (r: Result<seq<Moved>, Failure>)
      requires Valid()
      modifies this
      ensures Valid()
      ensures r == if !CanMove(paths, old(files), system) then Err(NotMoved)
                   else if !system.save then Err(NotSaved) else r
      ensures CanMove(paths, old(files), system) && system.save ==> r.Ok?
      ensures r.Ok? ==>
                && files == old(files) - paths
                && jobs == saved == MarkAt(old(jobs), paths, false)
                && PathsOf(r.value) == Told(paths * old(files).Keys, system.trash)
      ensures r.Err? ==> Undone(old(jobs), old(saved), old(files), paths, system)
      ensures Conserved(old(files), files, bin)
    {
      hide MarkAt, Told, Stuck, MovedOut, Conserved, Reached;
      var previous := jobs;
      var ok, moved := TrashAll(paths, system.trash);
      ReachedWithin(paths * old(files).Keys, system.trash);
      if ok {
        jobs := MarkAt(jobs, paths, false);
        if system.save {
          saved := jobs;
          MovedPaths(old(files), old(bin), bin, moved, Told(Reached(paths * old(files).Keys, system.trash), system.trash));
          return Ok(moved);
        }
      }
      MoveBack(previous, moved, system, old(files), old(bin), Reached(paths * old(files).Keys, system.trash));
      return Err(if ok then NotSaved else NotMoved);
    }

    /** Undoes the moves that can be undone and marks the records of the others. */
    method MoveBack(previous: seq<Job>, moved: seq<Moved>, system: System,
                    ghost files0: map<Path, File>, ghost bin0: map<nat, Trashed>, ghost trashed: set<Path>)
      requires Valid() && trashed <= files0.Keys && files == files0 - trashed && Conserved(files0, files, bin)
      requires MovedOut(files0, bin0, bin, moved, Told(trashed, system.trash))
      modifies this`jobs, this`saved, this`files, this`bin
      ensures Valid() && Conserved(files0, files, bin)
      ensures jobs == MarkAt(previous, Stuck(trashed, system), true)
      ensures files == files0 - (trashed - Told(trashed, system.trash)) - Stuck(trashed, system)
      ensures saved == if Stuck(trashed, system) != {} && system.saveAgain then jobs else old(saved)
    {
      var unrestored := RestoreAll(moved, system.restore, files0, bin0, Told(trashed, system.trash));
      assert unrestored == Stuck(trashed, system);
      hide MovedOut, Conserved;
      assert files == files0 - (trashed - Told(trashed, system.trash)) - unrestored;
      assert MarkAt(previous, {}, true) == previous;
      jobs := previous;
      if unrestored != {} {
        jobs := MarkAt(jobs, unrestored, true);
        if system.saveAgain { saved := jobs; }
      }
    }

    /** After a failure: the history is the previous one, except for records of files that could
        not be moved back, and all files but those and the ones nobody was told about are in place. */
    ghost predicate Undone(jobs0: seq<Job>, saved0: seq<Job>, files0: map<Path, File>, paths: set<Path>, system: System)
      reads this
    {
      var trashed := Reached(paths * files0.Keys, system.trash);
      && jobs == MarkAt(jobs0, Stuck(trashed, system), true)
      && saved == (if Stuck(trashed, system) != {} && system.saveAgain then jobs else saved0)
      && files == Remaining(files0, trashed, system)
    }
  }

  /** The paths before the first one that cannot be moved. */
  ghost function Reached(existing: set<Path>, trash: Path -> Move): set<Path> {
    set path | path in existing && forall q :: q in existing && (q == path || Less(q, path)) ==> !trash(q).Failed?
  }

  /** Some paths have been moved, and all of them come before the others. */
  ghost predicate Halfway(existing: set<Path>, trashed: set<Path>, left: set<Path>, trash: Path -> Move) {
    && existing == trashed + left && trashed !! left
    && (forall path :: path in trashed ==> !trash(path).Failed?)
    && (forall path, q :: path in trashed && q in left ==> Less(path, q))
  }

  lemma NextPath(existing: set<Path>, trashed: set<Path>, left: set<Path>, trash: Path -> Move, path: Path)
    requires Halfway(existing, trashed, left, trash) && IsLeast(path, left)
    ensures path in existing && path !in trashed
    ensures trash(path).Failed? ==> trashed == Reached(existing, trash)
    ensures !trash(path).Failed? ==> Halfway(existing, trashed + {path}, left - {path}, trash)
  {
    if trash(path).Failed? {
      forall p | p in trashed ensures p in Reached(existing, trash) {
        forall q | q in existing && (q == p || Less(q, p)) ensures !trash(q).Failed? {
          if q in left { LessIsTotal(p, q); }
        }
      }
    }
  }

  lemma LastPath(existing: set<Path>, trashed: set<Path>, trash: Path -> Move)
    requires Halfway(existing, trashed, {}, trash)
    ensures trashed == existing == Reached(existing, trash) && forall path :: path in existing ==> !trash(path).Failed?
  {
  }

  lemma ReachedWithin(existing: set<Path>, trash: Path -> Move)
    ensures Reached(existing, trash) <= existing
    ensures (forall path :: path in existing ==> !trash(path).Failed?) ==> Reached(existing, trash) == existing
  {
  }

  /** The files that are in place after a failure. */
  ghost function Remaining(files0: map<Path, File>, trashed: set<Path>, system: System): map<Path, File> {
    files0 - (trashed - Told(trashed, system.trash)) - Stuck(trashed, system)
  }

  /** No file at these paths refuses to be moved. */
  ghost predicate CanMove(paths: set<Path>, files: map<Path, File>, system: System) {
    forall path :: path in paths && path in files ==> !system.trash(path).Failed?
  }

  /** The trashed paths whose new place is known. */
  function Told(trashed: set<Path>, trash: Path -> Move): set<Path> {
    set path | path in trashed && trash(path).Reported?
  }

  /** The paths whose files could not be moved back. */
  function Stuck(trashed: set<Path>, system: System): set<Path> {
    Kept(Told(trashed, system.trash), system.restore)
  }

  function Kept(paths: set<Path>, restore: Path -> bool): set<Path> {
    set path | path in paths && !restore(path)
  }

  lemma KeptGrows(path: Path, paths: set<Path>, restore: Path -> bool)
    ensures Kept({path} + paths, restore) == (if restore(path) then {} else {path}) + Kept(paths, restore)
    ensures Kept(paths, restore) <= paths
  {
  }

  /** All moves but the first i have been undone or kept. */
  ghost predicate Restoring(files0: map<Path, File>, bin0: map<nat, Trashed>, keys: set<Path>,
                            files: map<Path, File>, bin: map<nat, Trashed>,
                            moved: seq<Moved>, i: nat, restore: Path -> bool, unrestored: set<Path>)
  {
    && i <= |moved| && MovedOut(files0, bin0, bin, moved[..i], PathsOf(moved[..i]))
    && unrestored == Kept(PathsOf(moved[i..]), restore)
    && files.Keys == keys + (PathsOf(moved[i..]) - unrestored)
  }

  lemma NextMove(files0: map<Path, File>, bin0: map<nat, Trashed>, keys: set<Path>,
                 files: map<Path, File>, bin: map<nat, Trashed>,
                 moved: seq<Moved>, i: nat, restore: Path -> bool, unrestored: set<Path>)
    requires i < |moved| && Restoring(files0, bin0, keys, files, bin, moved, i + 1, restore, unrestored)
    ensures var m := moved[i];
            && m.path in files0 && m.slot in bin && bin[m.slot] == Trashed(m.path, files0[m.path])
            && (restore(m.path) ==>
                  Restoring(files0, bin0, keys, files[m.path := files0[m.path]], bin - {m.slot}, moved, i, restore, unrestored))
            && (!restore(m.path) ==>
                  Restoring(files0, bin0, keys, files, bin, moved, i, restore, unrestored + {m.path}))
  {
    hide MovedOut, Kept, PathsOf;
    LastMove(files0, bin0, bin, moved[..i + 1]);
    assert moved[..i + 1][..i] == moved[..i];
    assert moved[i..] == [moved[i]] + moved[i + 1..];
    PathsOfFirst(moved[i], moved[i + 1..]);
    KeptGrows(moved[i].path, PathsOf(moved[i + 1..]), restore);
    RestoredGrows(keys, moved[i].path, PathsOf(moved[i + 1..]), restore);
  }

  lemma AllMoved(files0: map<Path, File>, bin0: map<nat, Trashed>, keys: set<Path>,
                 files: map<Path, File>, bin: map<nat, Trashed>, bin': map<nat, Trashed>,
                 moved: seq<Moved>, told: set<Path>, restore: Path -> bool, unrestored: set<Path>)
    requires Restoring(files0, bin0, keys, files, bin', moved, 0, restore, unrestored)
    requires MovedOut(files0, bin0, bin, moved, told)
    ensures unrestored == Kept(told, restore) && files.Keys == keys + (told - unrestored)
  {
    assert moved[0..] == moved;
  }

  lemma RestoredGrows(keys: set<Path>, path: Path, paths: set<Path>, restore: Path -> bool)
    ensures keys + (({path} + paths) - Kept({path} + paths, restore))
         == (keys + (paths - Kept(paths, restore))) + if restore(path) then {path} else {}
  {
  }

  /** Nothing but files that were there, with the content they had. */
  ghost predicate SameFiles(files0: map<Path, File>, files: map<Path, File>) {
    forall path :: path in files ==> path in files0 && files[path] == files0[path]
  }

  function PathsOf(moved: seq<Moved>): set<Path> { set m | m in moved :: m.path }

  /** Every file is where it was or in the bin. */
  ghost predicate Conserved(files0: map<Path, File>, files: map<Path, File>, bin: map<nat, Trashed>) {
    forall path :: path in files0 ==> (path in files && files[path] == files0[path]) || Trashed(path, files0[path]) in bin.Values
  }

  /** The list of moves names each known path once, with the slot that holds its file. */
  ghost predicate MovedOut(files0: map<Path, File>, bin0: map<nat, Trashed>, bin: map<nat, Trashed>, moved: seq<Moved>,
                           told: set<Path>)
  {
    && PathsOf(moved) == told
    && (forall i :: 0 <= i < |moved| ==> moved[i].path in files0 && moved[i].slot in bin && moved[i].slot !in bin0
                                         && bin[moved[i].slot] == Trashed(moved[i].path, files0[moved[i].path]))
    && (forall i, j :: 0 <= i < j < |moved| ==> moved[i].path != moved[j].path && moved[i].slot != moved[j].slot)
  }

  lemma BinGrows(files0: map<Path, File>, files: map<Path, File>, files': map<Path, File>,
                 bin: map<nat, Trashed>, bin': map<nat, Trashed>, path: Path, slot: nat)
    requires Conserved(files0, files, bin) && path in files && slot !in bin
    requires files' == files - {path} && bin' == bin[slot := Trashed(path, files[path])]
    ensures Conserved(files0, files', bin')
  {
    forall p | p in files0 ensures (p in files' && files'[p] == files0[p]) || Trashed(p, files0[p]) in bin'.Values {
      if p in files && files[p] == files0[p] {
        if p == path { assert bin'[slot] == Trashed(p, files0[p]); }
      } else {
        var s :| s in bin && bin[s] == Trashed(p, files0[p]);
        assert bin'[s] == Trashed(p, files0[p]);
      }
    }
  }

  lemma RestoreConserves(files0: map<Path, File>, files: map<Path, File>, bin: map<nat, Trashed>, move: Moved)
    requires Conserved(files0, files, bin) && move.slot in bin && move.path in files0
    requires bin[move.slot] == Trashed(move.path, files0[move.path])
    ensures Conserved(files0, files[move.path := bin[move.slot].file], bin - {move.slot})
  {
    var files' := files[move.path := bin[move.slot].file];
    var bin' := bin - {move.slot};
    forall p | p in files0 ensures (p in files' && files'[p] == files0[p]) || Trashed(p, files0[p]) in bin'.Values {
      if p != move.path && !(p in files && files[p] == files0[p]) {
        var s :| s in bin && bin[s] == Trashed(p, files0[p]);
        assert bin'[s] == Trashed(p, files0[p]);
      }
    }
  }

  lemma ToldGrows(trashed: set<Path>, trash: Path -> Move, path: Path)
    ensures Told(trashed + {path}, trash) == Told(trashed, trash) + if trash(path).Reported? then {path} else {}
  {
  }

  lemma MovedOutGrows(files0: map<Path, File>, bin0: map<nat, Trashed>, bin: map<nat, Trashed>, bin': map<nat, Trashed>,
                      moved: seq<Moved>, told: set<Path>, path: Path, slot: nat)
    requires MovedOut(files0, bin0, bin, moved, told)
    requires path in files0 && path !in told && slot !in bin && slot !in bin0 && bin' == bin[slot := Trashed(path, files0[path])]
    ensures MovedOut(files0, bin0, bin', moved, told)
    ensures MovedOut(files0, bin0, bin', moved + [Moved(path, slot)], told + {path})
  {
  }

  lemma LastMove(files0: map<Path, File>, bin0: map<nat, Trashed>, bin: map<nat, Trashed>, moved: seq<Moved>)
    requires moved != [] && MovedOut(files0, bin0, bin, moved, PathsOf(moved))
    ensures var last := moved[|moved| - 1];
            && MovedOut(files0, bin0, bin - {last.slot}, moved[..|moved| - 1], PathsOf(moved[..|moved| - 1]))
            && MovedOut(files0, bin0, bin, moved[..|moved| - 1], PathsOf(moved[..|moved| - 1]))
            && last.path !in PathsOf(moved[..|moved| - 1]) && last.path in files0 && last.slot in bin
            && bin[last.slot] == Trashed(last.path, files0[last.path])
  {
  }

  lemma MovedPaths(files0: map<Path, File>, bin0: map<nat, Trashed>, bin: map<nat, Trashed>, moved: seq<Moved>, told: set<Path>)
    requires MovedOut(files0, bin0, bin, moved, told)
    ensures PathsOf(moved) == told
  {
  }

  lemma PathsOfFirst(move: Moved, moved: seq<Moved>)
    ensures PathsOf([move] + moved) == {move.path} + PathsOf(moved)
  {
  }

  // ---------- does the history tell the truth? ----------

  /** A record with output whose file existed still has that file. */
  ghost predicate Truthful(jobs: seq<Job>, files0: map<Path, File>, files: map<Path, File>) {
    forall i :: 0 <= i < |jobs| && jobs[i].HasOutput() && jobs[i].output in files0 ==>
      jobs[i].output in files && files[jobs[i].output] == files0[jobs[i].output]
  }

  lemma SuccessIsTruthful(jobs: seq<Job>, files: map<Path, File>, ids: set<Id>)
    ensures Truthful(MarkAt(jobs, Paths(jobs, ids), false), files, files - Paths(jobs, ids))
  {
    hide Paths;
  }

  /** After a failure the history is truthful exactly if all files that come before the first one
      that cannot be moved are moved with a report of where they went; if the save failed, that is
      all selected files. A file that is moved without a report leaves a record whose file is gone. */
  lemma FailureIsTruthful(jobs: seq<Job>, files0: map<Path, File>, guard: Guard, ids: set<Id>, system: System)
    requires Selectable(jobs, guard, ids)
    ensures var existing := Paths(jobs, ids) * files0.Keys;
            var trashed := Reached(existing, system.trash);
            && (Truthful(MarkAt(jobs, Stuck(trashed, system), true), files0, Remaining(files0, trashed, system))
                <==> forall path :: path in trashed ==> system.trash(path).Reported?)
            && (CanMove(Paths(jobs, ids), files0, system) ==> trashed == existing)
  {
    var existing := Paths(jobs, ids) * files0.Keys;
    var trashed := Reached(existing, system.trash);
    ReachedWithin(existing, system.trash);
    hide Reached;
    var told, stuck := Told(trashed, system.trash), Stuck(trashed, system);
    if path :| path in trashed && !system.trash(path).Reported? {
      var id :| id in ids && Find(jobs, id).Some? && jobs[Find(jobs, id).value].output == path;
      var i := Find(jobs, id).value;
      assert Deletable(jobs, guard, id);
      assert MarkAt(jobs, stuck, true)[i] == jobs[i];
      assert path !in Remaining(files0, trashed, system);
    } else {
      assert trashed - told == {};
    }
  }

  /** Such a run: one finished job with its file, a move without a report, and a failed save. The
      record still has its output; its file is gone. */
  method SilentMove(id: Id, path: Path, file: File) returns (store: Store, r: Result<seq<Moved>, Failure>)
    ensures r == Err(NotSaved)
    ensures store.jobs == store.saved == [Job(id, Succeeded, path, false)] && store.jobs[0].HasOutput()
    ensures path !in store.files && !Truthful(store.jobs, map[path := file], store.files)
  {
    var job := Job(id, Succeeded, path, false);
    var guard := Guard(false, None, _ => true, {});
    var system := System(_ => Unreported, _ => true, false, true);
    store := new Store([job], map[path := file]);
    assert Find([job], id) == Some(0);
    assert Paths([job], {id}) == {path};
    assert Selectable([job], guard, {id});
    ReachedWithin({path}, system.trash);
    assert {path} * store.files.Keys == {path};
    r := store.Trash({id}, guard, system);
    assert Told({path}, system.trash) == {} && Stuck({path}, system) == {};
    assert store.jobs == [job];
    assert !Truthful(store.jobs, map[path := file], store.files) by { assert store.jobs[0].output == path; }
  }
}
