/**
 Trimming the cache of compiled programs: everything is checked before anything is deleted, then
 entries are evicted in order of use until the rest fits the budget.
 */
module CacheTrim {
  import opened Ordering
  import opened Wrappers

  /** A cache key is 64 hexadecimal digits; here any string. */
  type Key = string

  datatype File = File(size: nat, read: int, written: int, regular: bool)

  /** One program directory. stray: it holds other files than the two known ones. */
  datatype Program = Program(directory: bool, read: int, written: int,
                             model: Option<File>, weights: Option<File>, stray: bool)

  datatype Entry = Entry(key: Key, incomplete: bool, bytes: nat, lastRead: int, modified: int)

  datatype Budget = Budget(bytes: nat, entries: int)

  datatype Report = Report(beforeBytes: nat, afterBytes: nat, beforeEntries: nat, afterEntries: nat, evicted: seq<Key>)

  datatype Failure = WorkerActive | BadBudget | Unknown | Overflow | InUse | Unfinished

  function TwoTo64(): nat { 0x1_0000_0000_0000_0000 }

  function Max(a: int, b: int): int { if a > b then a else b }

  function Latest(a: Option<int>, b: Option<int>, otherwise: int): int {
    match (a, b)
    case (Some(x), Some(y)) => Max(x, y)
    case (Some(x), None) => x
    case (None, Some(y)) => y
    case (None, None) => otherwise
  }

  function Size(f: Option<File>): nat { if f.Some? then f.value.size else 0 }
  function ReadTime(f: Option<File>): Option<int> { if f.Some? then Some(f.value.read) else None }
  function WriteTime(f: Option<File>): Option<int> { if f.Some? then Some(f.value.written) else None }

  /** Both files are needed, and the model must not be empty. */
  predicate Incomplete(p: Program) { p.model.None? || p.weights.None? || p.model.value.size == 0 }

  function EntryOf(key: Key, p: Program): Entry {
    Entry(key, Incomplete(p), Size(p.model) + Size(p.weights),
          Latest(ReadTime(p.model), ReadTime(p.weights), p.read),
          Latest(WriteTime(p.model), WriteTime(p.weights), p.written))
  }

  predicate RegularFile(f: Option<File>) { f.Some? ==> f.value.regular }

  predicate KnownProgram(p: Program) {
    p.directory && !p.stray && RegularFile(p.model) && RegularFile(p.weights)
  }

  // ---------- the order of eviction ----------

  /** Incomplete entries first, then the longest unread, the longest unmodified, the least key. */
  predicate Before(a: Entry, b: Entry) {
    if a.incomplete != b.incomplete then a.incomplete
    else if a.lastRead != b.lastRead then a.lastRead < b.lastRead
    else if a.modified != b.modified then a.modified < b.modified
    else Less(a.key, b.key)
  }

  lemma BeforeIsTransitive(a: Entry, b: Entry, c: Entry)
    requires Before(a, b) && Before(b, c)
    ensures Before(a, c)
  {
    if Less(a.key, b.key) && Less(b.key, c.key) { LessIsTransitive(a.key, b.key, c.key); }
  }

  lemma BeforeIsTotal(a: Entry, b: Entry)
    requires a.key != b.key
    ensures Before(a, b) != Before(b, a)
  {
    LessIsTotal(a.key, b.key);
  }

  ghost predicate Ordered(s: seq<Entry>) {
    forall i, j :: 0 <= i < j < |s| ==> Before(s[i], s[j])
  }

  ghost predicate DistinctKeys(s: seq<Entry>) {
    forall i, j :: 0 <= i < j < |s| ==> s[i].key != s[j].key
  }

  function Insert(e: Entry, s: seq<Entry>): seq<Entry> {
    if s == [] || Before(e, s[0]) then [e] + s else [s[0]] + Insert(e, s[1..])
  }

  function Sort(s: seq<Entry>): seq<Entry> {
    if s == [] then [] else Insert(s[0], Sort(s[1..]))
  }

  function Sum(s: seq<Entry>): nat {
    if s == [] then 0 else s[0].bytes + Sum(s[1..])
  }

  lemma {:induction false} InsertKeeps(e: Entry, s: seq<Entry>)
    ensures multiset(Insert(e, s)) == multiset(s) + multiset{e}
    ensures Sum(Insert(e, s)) == e.bytes + Sum(s)
    ensures |Insert(e, s)| == |s| + 1
  {
    if s == [] || Before(e, s[0]) {
      assert ([e] + s)[1..] == s;
    } else {
      InsertKeeps(e, s[1..]);
      assert s == [s[0]] + s[1..];
      assert ([s[0]] + Insert(e, s[1..]))[1..] == Insert(e, s[1..]);
    }
  }

  lemma {:induction false} InsertOrders(e: Entry, s: seq<Entry>)
    requires Ordered(s) && forall i :: 0 <= i < |s| ==> s[i].key != e.key
    ensures Ordered(Insert(e, s))
  {
    if s != [] {
      if Before(e, s[0]) {
        forall j | 0 < j < |s| ensures Before(e, s[j]) { BeforeIsTransitive(e, s[0], s[j]); }
      } else {
        BeforeIsTotal(e, s[0]);
        InsertOrders(e, s[1..]);
        InsertElements(e, s[1..]);
        hide Before;
        var rest := Insert(e, s[1..]);
        forall j | 0 <= j < |rest| ensures Before(s[0], rest[j]) { assert rest[j] in rest; }
      }
    }
  }

  lemma InsertElements(e: Entry, s: seq<Entry>)
    ensures forall x :: x in Insert(e, s) <==> x == e || x in s
  {
    InsertKeeps(e, s);
    SameElements(Insert(e, s), s + [e]);
  }

  lemma {:induction false} InsertIsDistinct(e: Entry, s: seq<Entry>)
    requires DistinctKeys(s) && forall i :: 0 <= i < |s| ==> s[i].key != e.key
    ensures DistinctKeys(Insert(e, s))
  {
    hide Before;
    if s != [] && !Before(e, s[0]) {
      InsertIsDistinct(e, s[1..]);
      InsertElements(e, s[1..]);
      var rest := Insert(e, s[1..]);
      forall j | 0 <= j < |rest| ensures s[0].key != rest[j].key { assert rest[j] in rest; }
    }
  }

  lemma {:induction false} SortSorts(s: seq<Entry>)
    requires DistinctKeys(s)
    ensures Ordered(Sort(s)) && DistinctKeys(Sort(s)) && multiset(Sort(s)) == multiset(s)
    ensures Sum(Sort(s)) == Sum(s) && |Sort(s)| == |s|
  {
    if s != [] {
      SortSorts(s[1..]);
      var rest := Sort(s[1..]);
      SameElements(rest, s[1..]);
      assert s == [s[0]] + s[1..];
      hide Ordered, Before, Insert, Sum;
      assert Sum(s) == s[0].bytes + Sum(s[1..]) by { SumOfFirst(s); }
      OthersDiffer(s, rest);
      InsertOrders(s[0], rest);
      InsertIsDistinct(s[0], rest);
      InsertKeeps(s[0], rest);
    }
  }

  lemma OthersDiffer(s: seq<Entry>, rest: seq<Entry>)
    requires s != [] && DistinctKeys(s) && forall e :: e in rest ==> e in s[1..]
    ensures forall i :: 0 <= i < |rest| ==> rest[i].key != s[0].key
  {
    forall i | 0 <= i < |rest| ensures rest[i].key != s[0].key {
      assert rest[i] in s[1..];
      var j :| 0 <= j < |s[1..]| && s[1..][j] == rest[i];
      assert s[j + 1] == rest[i];
    }
  }

  lemma SumOfFirst(s: seq<Entry>)
    requires s != []
    ensures Sum(s) == s[0].bytes + Sum(s[1..])
  {
  }

  lemma SameElements(a: seq<Entry>, b: seq<Entry>)
    requires multiset(a) == multiset(b)
    ensures forall e :: e in a <==> e in b
  {
    assert forall e :: e in a <==> e in multiset(a);
    assert forall e :: e in b <==> e in multiset(b);
  }

  // ---------- how much is evicted ----------

  /** What is left after the first k entries is complete and within the budget. */
  predicate Fits(order: seq<Entry>, budget: Budget, k: nat)
    requires k <= |order|
  {
    && Sum(order[k..]) <= budget.bytes && |order| - k <= budget.entries
    && forall j :: k <= j < |order| ==> !order[j].incomplete
  }

  /** The shortest prefix whose removal suffices. */
  ghost predicate IsShortest(order: seq<Entry>, budget: Budget, k: nat) {
    k <= |order| && Fits(order, budget, k) && NoneShorter(order, budget, k)
  }

  ghost predicate NoneShorter(order: seq<Entry>, budget: Budget, k: nat)
    requires k <= |order|
  {
    forall j: nat :: j < k ==> !Fits(order, budget, j)
  }

  lemma ShortestIsUnique(order: seq<Entry>, budget: Budget, j: nat, k: nat)
    requires IsShortest(order, budget, j) && IsShortest(order, budget, k)
    ensures j == k
  {
  }

  /** The first k entries could be evicted. */
  ghost predicate AllEvicted(order: seq<Entry>, attempts: Key -> Attempt, k: nat)
    requires k <= |order|
  {
    forall j: nat :: j < k ==> attempts(order[j].key).Evicted?
  }

  /** The locks that had no program from the beginning are free. */
  ghost predicate Unused(locks: map<Key, File>, programs: map<Key, Program>, free: Key -> bool) {
    forall key :: key in locks && key !in programs ==> free(key)
  }

  function Keys(s: seq<Entry>): seq<Key> { seq(|s|, i requires 0 <= i < |s| => s[i].key) }

  function KeySet(s: seq<Entry>): set<Key> { set e | e in s :: e.key }

  // ---------- the directory ----------

  /** What becomes of an attempt to evict one entry. Refused: locked, changed or gone, and nothing
      is touched. Broken: that many of the four removals were done before one failed. */
  datatype Attempt = Evicted | Refused | Broken(removals: nat)

  /** What such an attempt leaves of a program: both files go before the directory, the model first. */
  function Left(p: Program, attempt: Attempt): Option<Program> {
    match attempt
    case Evicted => None
    case Refused => Some(p)
    case Broken(removals) =>
      if removals == 0 then Some(p)
      else if removals == 1 then Some(p.(model := None))
      else if removals == 2 then Some(p.(model := None, weights := None))
      else None
  }

  function At(programs: map<Key, Program>, key: Key): Option<Program> {
    if key in programs then Some(programs[key]) else None
  }

  class ProgramCache {
    var programs: map<Key, Program>
    var locks: map<Key, File>
    /** Names that are neither keys nor locks of keys. */
    var strangers: nat

    predicate Known()
      reads this
    {
      && strangers == 0
      && (forall key :: key in locks ==> locks[key].regular && locks[key].size == 0)
      && (forall key :: key in programs ==> key in locks && KnownProgram(programs[key]))
    }

    constructor (programs: map<Key, Program>, locks: map<Key, File>, strangers: nat)
      ensures this.programs == programs && this.locks == locks && this.strangers == strangers
    {
      this.programs, this.locks, this.strangers := programs, locks, strangers;
    }

    /** Everything is what the worker leaves there: empty lock files, and directories with a lock that
        hold nothing but its regular files. */
    lemma KnownMeans()
      ensures Known() <==>
                && strangers == 0 && (forall key :: key in locks ==> locks[key].regular && locks[key].size == 0)
                && (forall key :: key in programs ==>
                      && key in locks && programs[key].directory && !programs[key].stray
                      && forall f :: f in Files(programs[key]) ==> f.regular)
    {
      forall key | key in programs
        ensures KnownProgram(programs[key]) <==>
                  programs[key].directory && !programs[key].stray && forall f :: f in Files(programs[key]) ==> f.regular
      {
        var p := programs[key];
        assert p.model.Some? ==> p.model.value in Files(p);
        assert p.weights.Some? ==> p.weights.value in Files(p);
      }
      hide KnownProgram, Files;
    }

    /** Looks at everything; changes nothing. names lists the program directories. */
    method Scan(names: seq<Key>) returns (r: Result<seq<Entry>, Failure>)
      requires Lists(names, programs.Keys)
      ensures r.Ok? <==> Known()
      ensures r.Ok? ==> |r.value| == |names| && forall i :: 0 <= i < |names| ==> r.value[i] == EntryOf(names[i], programs[names[i]])
      ensures r.Err? ==> r.error == Unknown
    {
      if strangers > 0 || exists key :: key in locks && !(locks[key].regular && locks[key].size == 0) { return Err(Unknown); }
      var entries: seq<Entry> := [];
      for i := 0 to |names|
        invariant |entries| == i
        invariant forall j :: 0 <= j < i ==> entries[j] == EntryOf(names[j], programs[names[j]])
        invariant forall j :: 0 <= j < i ==> names[j] in locks && KnownProgram(programs[names[j]])
      {
        var program := programs[names[i]];
        if names[i] !in locks || !KnownProgram(program) { return Err(Unknown); }
        entries := entries + [EntryOf(names[i], program)];
      }
      return Ok(entries);
    }

    /** Four removals in a fixed order; any of them may fail. */
    method Evict(key: Key, attempt: Attempt) returns (ok: bool)
      requires key in programs && key in locks
      modifies this
      ensures ok == attempt.Evicted?
      ensures strangers == old(strangers)
      ensures ok ==> programs == old(programs) - {key} && locks == old(locks) - {key}
      ensures !ok ==> programs - {key} == old(programs) - {key} && locks == old(locks)
      ensures attempt.Refused? ==> programs == old(programs)
      ensures At(programs, key) == Left(old(programs)[key], attempt)
    {
      if attempt.Refused? { return false; }
      var program := programs[key];
      if attempt == Broken(0) { return false; }
      programs := programs[key := program.(model := None)];
      if attempt == Broken(1) { return false; }
      programs := programs[key := program.(model := None, weights := None)];
      if attempt == Broken(2) { return false; }
      programs := programs - {key};
      if attempt.Broken? { return false; }
      locks := locks - {key};
      return true;
    }

    /** The locks of programs that no longer exist. */
    method EraseLocks(free: Key -> bool) returns (ok: bool)
      requires programs.Keys <= locks.Keys
      modifies this`locks
      ensures ok ==> locks.Keys == programs.Keys
      ensures programs.Keys <= locks.Keys <= old(locks).Keys && forall key :: key in locks ==> locks[key] == old(locks)[key]
      ensures !ok ==> exists key :: key in locks && key !in programs && !free(key)
      ensures ok ==> Unused(old(locks), programs, free)
    {
      var left := locks.Keys - programs.Keys;
      while left != {}
        invariant left == locks.Keys - programs.Keys
        invariant programs.Keys <= locks.Keys <= old(locks).Keys
        invariant forall key :: key in locks ==> locks[key] == old(locks)[key]
        invariant forall key :: key in old(locks) && key !in locks ==> free(key)
      {
        var key :| key in left;
        if !free(key) { return false; }
        locks := locks - {key};
        left := left - {key};
      }
      assert forall key :: key in locks.Keys ==> key in left || key in programs.Keys;
      return true;
    }

    method Trim(idle: bool, budget: Budget, names: seq<Key>, attempts: Key -> Attempt, free: Key -> bool)
      returns (r: Result<Report, Failure>)
      requires Lists(names, programs.Keys)
      modifies this
      // Nothing is deleted unless everything was recognised.
      ensures !idle || budget.entries < 0 || !old(Known()) || Sum(EntriesOf(old(programs), names)) >= TwoTo64() ==>
                r.Err? && programs == old(programs) && locks == old(locks)
      ensures !idle ==> r == Err(WorkerActive)
      ensures idle && budget.entries < 0 ==> r == Err(BadBudget)
      ensures idle && budget.entries >= 0 && !old(Known()) ==> r == Err(Unknown)
      ensures idle && budget.entries >= 0 && old(Known()) && Sum(EntriesOf(old(programs), names)) >= TwoTo64() ==>
                r == Err(Overflow)
      // What success means for the files.
      ensures r.Ok? ==> RightlyEvicted(old(programs), programs, budget) && Reports(old(programs), programs, r.value)
      // Otherwise the evicted entries are a prefix of the order, and on success the shortest.
      ensures idle && budget.entries >= 0 && old(Known()) && Sum(EntriesOf(old(programs), names)) < TwoTo64() ==>
                exists k: nat :: Trimmed(old(programs), old(locks), Sort(EntriesOf(old(programs), names)), budget, attempts,
                                         free, k, r)
    {
      if !idle { return Err(WorkerActive); }
      if budget.entries < 0 { return Err(BadBudget); }
      var scanned := Scan(names);
      if scanned.Err? { return Err(scanned.error); }
      var entries := scanned.value;
      assert entries == EntriesOf(programs, names);
      if Sum(entries) >= TwoTo64() { return Err(Overflow); }
      ListedEntries(programs, names);
      SortSorts(entries);
      assert programs.Keys <= locks.Keys;
      SortedIsMadeOf(programs, names);
      hide MadeOf, RightlyEvicted, Reports, Trimmed, Sort, EntriesOf, Sum, Lists, Known, DistinctKeys, KeySet, Ordered;
      ghost var k;
      r, k := TrimInOrder(Sort(entries), budget, attempts, free);
    }

    /** The part that deletes. */
    method TrimInOrder(order: seq<Entry>, budget: Budget, attempts: Key -> Attempt, free: Key -> bool)
      returns (r: Result<Report, Failure>, ghost k: nat)
      requires Ordered(order) && DistinctKeys(order) && KeySet(order) == programs.Keys && programs.Keys <= locks.Keys
      requires budget.entries >= 0 && MadeOf(order, programs)
      modifies this
      ensures r.Ok? ==> RightlyEvicted(old(programs), programs, budget) && Reports(old(programs), programs, r.value)
      ensures Trimmed(old(programs), old(locks), order, budget, attempts, free, k, r)
    {
      assert forall i :: 0 <= i <= |order| ==> KeySet(order[..i]) <= KeySet(order);
      hide NoneShorter, Fits, AllEvicted, KeySet, Keys, Sum, StuckAtEntry, Ordered, DistinctKeys;
      r, k := EvictWhileNeeded(order, budget, attempts);
      assert KeySet(order[..k]) <= old(programs).Keys;
      if r.Ok? {
        RemainingPrograms(old(programs), order, k);
        var ok := EraseLocks(free);
        if !ok { r := Err(InUse); }
        ShortestIsRight(order, old(programs), budget, k, programs);
        EvictedInOrder(order, old(programs), k, programs);
      }
      hide RightlyEvicted, ListsEvicted, MadeOf, BytesOf;
    }

    /** What is left of the cache after an attempt to trim it, k entries of the order having been
        evicted. All of those were needed. It fails exactly at the first entry that is needed and
        cannot be evicted, which alone may be damaged and keeps its lock; or, when all is evicted, at
        a lock without a program that is not free. */
    ghost predicate Trimmed(programs: map<Key, Program>, locks: map<Key, File>, order: seq<Entry>, budget: Budget,
                            attempts: Key -> Attempt, free: Key -> bool, k: nat, r: Result<Report, Failure>)
      reads this
    {
      && k <= |order| && NoneShorter(order, budget, k) && AllEvicted(order, attempts, k)
      && match r
         case Ok(report) =>
           && IsShortest(order, budget, k)
           && this.programs == programs - KeySet(order[..k])
           && this.locks.Keys == this.programs.Keys == KeySet(order[k..])
           && Unused(locks, programs, free)
           && report == Report(Sum(order), Sum(order[k..]), |order|, |order| - k, Keys(order[..k]))
         case Err(error) => StuckAtEntry(order, programs, locks, budget, attempts, k, error)
                            || StuckAtLock(order, programs, locks, budget, free, k, error)
    }

    ghost predicate StuckAtEntry(order: seq<Entry>, programs: map<Key, Program>, locks: map<Key, File>, budget: Budget,
                                 attempts: Key -> Attempt, k: nat, error: Failure)
      reads this
    {
      && k < |order| && !Fits(order, budget, k) && !attempts(order[k].key).Evicted?
      && error == (if attempts(order[k].key).Refused? then InUse else Unfinished)
      && this.programs - {order[k].key} == programs - KeySet(order[..k]) - {order[k].key}
      && (attempts(order[k].key).Refused? ==> this.programs == programs - KeySet(order[..k]))
      && order[k].key in programs && At(this.programs, order[k].key) == Left(programs[order[k].key], attempts(order[k].key))
      && this.locks == locks - KeySet(order[..k])
    }

    ghost predicate StuckAtLock(order: seq<Entry>, programs: map<Key, Program>, locks: map<Key, File>, budget: Budget,
                                free: Key -> bool, k: nat, error: Failure)
      reads this
    {
      && k <= |order| && IsShortest(order, budget, k) && error == InUse
      && this.programs == programs - KeySet(order[..k])
      && this.programs.Keys <= this.locks.Keys <= (locks - KeySet(order[..k])).Keys
      && (exists key :: key in this.locks && key !in programs && !free(key))
    }

    lemma Stuck(order: seq<Entry>, programs: map<Key, Program>, locks: map<Key, File>, budget: Budget,
                attempts: Key -> Attempt, k: nat, error: Failure)
      requires k < |order| && !Fits(order, budget, k) && !attempts(order[k].key).Evicted?
      requires error == (if attempts(order[k].key).Refused? then InUse else Unfinished)
      requires this.programs - {order[k].key} == programs - KeySet(order[..k]) - {order[k].key}
      requires attempts(order[k].key).Refused? ==> this.programs == programs - KeySet(order[..k])
      requires order[k].key in programs && At(this.programs, order[k].key) == Left(programs[order[k].key], attempts(order[k].key))
      requires this.locks == locks - KeySet(order[..k])
      ensures StuckAtEntry(order, programs, locks, budget, attempts, k, error)
    {
    }

    /** One more entry of the order, after the first i. */
    method EvictNext(order: seq<Entry>, i: nat, attempt: Attempt,
                     ghost programs0: map<Key, Program>, ghost locks0: map<Key, File>)
      returns (ok: bool)
      requires DistinctKeys(order) && i < |order| && KeySet(order) == programs0.Keys && programs0.Keys <= locks0.Keys
      requires programs == programs0 - KeySet(order[..i]) && locks == locks0 - KeySet(order[..i])
      modifies this
      ensures ok == attempt.Evicted? && strangers == old(strangers)
      ensures ok ==> programs == programs0 - KeySet(order[..i + 1]) && locks == locks0 - KeySet(order[..i + 1])
      ensures !ok ==> programs - {order[i].key} == programs0 - KeySet(order[..i]) - {order[i].key}
      ensures attempt.Refused? ==> programs == programs0 - KeySet(order[..i])
      ensures !ok ==> locks == locks0 - KeySet(order[..i])
      ensures order[i].key in programs0 && At(programs, order[i].key) == Left(programs0[order[i].key], attempt)
    {
      StillThere(order, i);
      OneMore(order, i);
      assert order[i].key in programs0 && programs[order[i].key] == programs0[order[i].key];
      hide *;
      ok := Evict(order[i].key, attempt);
      MinusOne(programs0, KeySet(order[..i]), order[i].key);
      MinusOne(locks0, KeySet(order[..i]), order[i].key);
    }

    method EvictWhileNeeded(order: seq<Entry>, budget: Budget, attempts: Key -> Attempt)
      returns (r: Result<Report, Failure>, ghost k: nat)
      requires Ordered(order) && DistinctKeys(order) && KeySet(order) == programs.Keys && programs.Keys <= locks.Keys
      requires budget.entries >= 0
      modifies this
      ensures k <= |order| && strangers == old(strangers)
      ensures NoneShorter(order, budget, k) && AllEvicted(order, attempts, k)
      ensures r.Ok? ==>
                && IsShortest(order, budget, k)
                && programs == old(programs) - KeySet(order[..k]) && locks == old(locks) - KeySet(order[..k])
                && r.value == Report(Sum(order), Sum(order[k..]), |order|, |order| - k, Keys(order[..k]))
      ensures r.Err? ==> StuckAtEntry(order, old(programs), old(locks), budget, attempts, k, r.error)
    {
      var bytes, count, removed := Sum(order), |order|, [];
      var i := 0;
      k := 0;
      NothingEvicted(order, budget, programs);
      NothingEvicted(order, budget, locks);
      assert AllEvicted(order, attempts, 0);
      hide *;
      while i < |order|
        invariant k <= i <= |order| && strangers == old(strangers)
        invariant k == i || Fits(order, budget, k)
        invariant k < i ==> bytes <= budget.bytes && count <= budget.entries
                            && forall j :: k <= j < |order| ==> !order[j].incomplete
        invariant NoneShorter(order, budget, k) && AllEvicted(order, attempts, k)
        invariant bytes == Sum(order[k..]) && count == |order| - k && removed == Keys(order[..k])
        invariant programs == old(programs) - KeySet(order[..k]) && locks == old(locks) - KeySet(order[..k])
      {
        var entry := order[i];
        Needed(order, budget, i);
        if entry.incomplete || bytes > budget.bytes || count > budget.entries {
          var ok := EvictNext(order, i, attempts(entry.key), old(programs), old(locks));
          if !ok {
            r := Err(if attempts(entry.key).Refused? then InUse else Unfinished);
            Stuck(order, old(programs), old(locks), budget, attempts, k, r.error);
            return;
          }
          OneMore(order, i);
          OneMoreEvicted(order, attempts, i);
          bytes, count, removed := bytes - entry.bytes, count - 1, removed + [entry.key];
          k := k + 1;
        }
        i := i + 1;
      }
      EndOfOrder(order, budget, k);
      return Ok(Report(Sum(order), bytes, |order|, count, removed)), k;
    }
  }

  ghost predicate Lists(names: seq<Key>, keys: set<Key>) {
    && (forall i, j :: 0 <= i < j < |names| ==> names[i] != names[j])
    && (forall i :: 0 <= i < |names| ==> names[i] in keys)
    && (forall key :: key in keys ==> key in names)
  }

  function EntriesOf(programs: map<Key, Program>, names: seq<Key>): seq<Entry>
    requires forall i :: 0 <= i < |names| ==> names[i] in programs
  {
    seq(|names|, i requires 0 <= i < |names| => EntryOf(names[i], programs[names[i]]))
  }

  lemma ListedEntries(programs: map<Key, Program>, names: seq<Key>)
    requires Lists(names, programs.Keys)
    ensures DistinctKeys(EntriesOf(programs, names)) && KeySet(EntriesOf(programs, names)) == programs.Keys
    ensures DistinctKeys(Sort(EntriesOf(programs, names))) && KeySet(Sort(EntriesOf(programs, names))) == programs.Keys
  {
    UnsortedEntries(programs, names);
    hide *;
    SortSorts(EntriesOf(programs, names));
    SameElements(Sort(EntriesOf(programs, names)), EntriesOf(programs, names));
    SameKeys(Sort(EntriesOf(programs, names)), EntriesOf(programs, names));
  }

  lemma SameKeys(a: seq<Entry>, b: seq<Entry>)
    requires forall e :: e in a <==> e in b
    ensures KeySet(a) == KeySet(b)
  {
  }

  lemma UnsortedEntries(programs: map<Key, Program>, names: seq<Key>)
    requires Lists(names, programs.Keys)
    ensures DistinctKeys(EntriesOf(programs, names)) && KeySet(EntriesOf(programs, names)) == programs.Keys
  {
    var entries := EntriesOf(programs, names);
    forall key | key in programs.Keys ensures key in KeySet(entries) {
      var i :| 0 <= i < |names| && names[i] == key;
      assert entries[i] in entries && entries[i].key == key;
    }
  }

  lemma MinusOne<V>(m: map<Key, V>, keys: set<Key>, key: Key)
    ensures m - keys - {key} == m - (keys + {key})
  {
  }

  lemma StillThere(order: seq<Entry>, i: nat)
    requires DistinctKeys(order) && i < |order|
    ensures order[i].key in KeySet(order) && order[i].key !in KeySet(order[..i])
    ensures Sum(order[i..]) >= order[i].bytes
  {
    assert order[i] in order;
  }

  lemma OneMore(order: seq<Entry>, i: nat)
    requires i < |order|
    ensures Sum(order[i..]) == order[i].bytes + Sum(order[i + 1..])
    ensures KeySet(order[..i + 1]) == KeySet(order[..i]) + {order[i].key}
    ensures Keys(order[..i + 1]) == Keys(order[..i]) + [order[i].key]
  {
    assert order[i..][1..] == order[i + 1..];
    assert order[..i + 1] == order[..i] + [order[i]];
    assert order[i] in order[..i + 1];
    forall key | key in KeySet(order[..i]) ensures key in KeySet(order[..i + 1]) {
      var e :| e in order[..i] && e.key == key;
      assert e in order[..i + 1];
    }
  }

  /** The loop's question decides whether a prefix is enough. */
  lemma Needed(order: seq<Entry>, budget: Budget, k: nat)
    requires Ordered(order) && k < |order|
    ensures Fits(order, budget, k) <==>
              !order[k].incomplete && Sum(order[k..]) <= budget.bytes && |order| - k <= budget.entries
    ensures Fits(order, budget, k) ==>
              forall j: nat :: k <= j < |order| ==> !order[j].incomplete
    ensures NoneShorter(order, budget, k) && !Fits(order, budget, k) ==> NoneShorter(order, budget, k + 1)
  {
    if !order[k].incomplete { RestIsComplete(order, k); }
  }

  lemma NothingEvicted<V>(order: seq<Entry>, budget: Budget, m: map<Key, V>)
    ensures Sum(order[0..]) == Sum(order) && Keys(order[..0]) == [] && KeySet(order[..0]) == {}
    ensures NoneShorter(order, budget, 0) && m == m - KeySet(order[..0])
  {
    assert order[0..] == order && order[..0] == [];
  }

  lemma OneMoreEvicted(order: seq<Entry>, attempts: Key -> Attempt, k: nat)
    requires k < |order| && AllEvicted(order, attempts, k) && attempts(order[k].key).Evicted?
    ensures AllEvicted(order, attempts, k + 1)
  {
  }

  lemma EndOfOrder(order: seq<Entry>, budget: Budget, k: nat)
    requires k <= |order| && NoneShorter(order, budget, k) && budget.entries >= 0
    requires k == |order| || Fits(order, budget, k)
    ensures IsShortest(order, budget, k)
  {
  }

  /** Incomplete entries come first. */
  lemma RestIsComplete(order: seq<Entry>, i: nat)
    requires Ordered(order) && i < |order| && !order[i].incomplete
    ensures forall j :: i <= j < |order| ==> !order[j].incomplete
  {
    forall j | i < j < |order| ensures !order[j].incomplete { assert Before(order[i], order[j]); }
  }

  lemma RemainingPrograms(programs: map<Key, Program>, order: seq<Entry>, k: nat)
    requires DistinctKeys(order) && KeySet(order) == programs.Keys && k <= |order|
    ensures (programs - KeySet(order[..k])).Keys == KeySet(order[k..])
  {
    KeySetSplits(order, k);
    hide KeySet;
    assert (programs - KeySet(order[..k])).Keys == programs.Keys - KeySet(order[..k]);
  }

  lemma KeySetSplits(order: seq<Entry>, k: nat)
    requires DistinctKeys(order) && k <= |order|
    ensures KeySet(order) - KeySet(order[..k]) == KeySet(order[k..])
  {
    forall key | key in KeySet(order[k..]) ensures key in KeySet(order) - KeySet(order[..k]) {
      var e :| e in order[k..] && e.key == key;
      var i :| 0 <= i < |order[k..]| && order[k..][i] == e;
      assert order[k + i] == e;
    }
    forall key | key in KeySet(order) - KeySet(order[..k]) ensures key in KeySet(order[k..]) {
      var e :| e in order && e.key == key;
      var i :| 0 <= i < |order| && order[i] == e;
      assert forall j :: 0 <= j < k ==> order[j] in order[..k];
      assert i >= k && order[k..][i - k] == e;
    }
  }

  // ---------- what it means for the files ----------

  function Files(p: Program): set<File> {
    (if p.model.Some? then {p.model.value} else {}) + (if p.weights.Some? then {p.weights.value} else {})
  }

  predicate Whole(p: Program) { p.model.Some? && p.weights.Some? && p.model.value.size > 0 }

  /** When its files were read, or its directory if it has none. */
  function Reads(p: Program): set<int> { if Files(p) == {} then {p.read} else set f | f in Files(p) :: f.read }
  function Writes(p: Program): set<int> { if Files(p) == {} then {p.written} else set f | f in Files(p) :: f.written }

  /** The last of these times is not after the last of those. */
  predicate NotAfter(a: set<int>, b: set<int>) { forall x :: x in a ==> exists y :: y in b && x <= y }

  /** Unusable programs go first; then those whose last read is longer ago, then those whose last
      write is, then the lesser key. */
  predicate Sooner(a: Key, p: Program, b: Key, q: Program) {
    if Whole(p) != Whole(q) then Whole(q)
    else
      && NotAfter(Reads(p), Reads(q))
      && (NotAfter(Reads(q), Reads(p)) ==>
            && NotAfter(Writes(p), Writes(q))
            && (NotAfter(Writes(q), Writes(p)) ==> Less(a, b)))
  }

  lemma LatestOf(a: Option<int>, b: Option<int>, otherwise: int, times: set<int>)
    requires times == (if a.None? && b.None? then {otherwise}
                       else (if a.Some? then {a.value} else {}) + (if b.Some? then {b.value} else {}))
    ensures Latest(a, b, otherwise) in times && forall x :: x in times ==> x <= Latest(a, b, otherwise)
  {
  }

  lemma NotAfterIsLatest(a: set<int>, x: int, b: set<int>, y: int)
    requires x in a && y in b && (forall v :: v in a ==> v <= x) && (forall v :: v in b ==> v <= y)
    ensures NotAfter(a, b) <==> x <= y
  {
  }

  lemma TimesOf(key: Key, p: Program)
    ensures var e := EntryOf(key, p);
            && e.lastRead in Reads(p) && (forall x :: x in Reads(p) ==> x <= e.lastRead)
            && e.modified in Writes(p) && (forall x :: x in Writes(p) ==> x <= e.modified)
  {
    assert p.model.Some? ==> p.model.value in Files(p);
    assert p.weights.Some? ==> p.weights.value in Files(p);
    LatestOf(ReadTime(p.model), ReadTime(p.weights), p.read, Reads(p));
    LatestOf(WriteTime(p.model), WriteTime(p.weights), p.written, Writes(p));
  }

  /** The order of the entries is the order of the files. */
  lemma BeforeIsSooner(a: Key, p: Program, b: Key, q: Program)
    ensures Before(EntryOf(a, p), EntryOf(b, q)) <==> Sooner(a, p, b, q)
  {
    TimesOf(a, p);
    TimesOf(b, q);
    var e, f := EntryOf(a, p), EntryOf(b, q);
    NotAfterIsLatest(Reads(p), e.lastRead, Reads(q), f.lastRead);
    NotAfterIsLatest(Reads(q), f.lastRead, Reads(p), e.lastRead);
    NotAfterIsLatest(Writes(p), e.modified, Writes(q), f.modified);
    NotAfterIsLatest(Writes(q), f.modified, Writes(p), e.modified);
    hide NotAfter, Reads, Writes, Latest;
  }

  function SizeOf(p: Program): nat {
    (if p.model.Some? then p.model.value.size else 0) + (if p.weights.Some? then p.weights.value.size else 0)
  }

  /** The bytes of these programs together. */
  ghost function BytesOf(programs: map<Key, Program>, keys: set<Key>): nat
    requires keys <= programs.Keys
    decreases keys
  {
    if keys == {} then 0 else var key :| key in keys; SizeOf(programs[key]) + BytesOf(programs, keys - {key})
  }

  lemma {:induction false} BytesOfOne(programs: map<Key, Program>, keys: set<Key>, key: Key)
    requires keys <= programs.Keys && key in keys
    ensures BytesOf(programs, keys) == SizeOf(programs[key]) + BytesOf(programs, keys - {key})
    decreases keys
  {
    var k :| k in keys && BytesOf(programs, keys) == SizeOf(programs[k]) + BytesOf(programs, keys - {k});
    if k != key {
      BytesOfOne(programs, keys - {k}, key);
      BytesOfOne(programs, keys - {key}, k);
      assert keys - {k} - {key} == keys - {key} - {k};
    }
    hide SizeOf;
  }

  /** Entries that were made of programs. */
  ghost predicate MadeOf(order: seq<Entry>, programs: map<Key, Program>) {
    forall i :: 0 <= i < |order| ==> order[i].key in programs && order[i] == EntryOf(order[i].key, programs[order[i].key])
  }

  lemma FirstKey(order: seq<Entry>)
    requires order != [] && DistinctKeys(order)
    ensures DistinctKeys(order[1..]) && order[0].key in KeySet(order)
    ensures KeySet(order) - {order[0].key} == KeySet(order[1..])
  {
    OneMore(order, 0);
    KeySetSplits(order, 1);
    assert order[..1] == [order[0]] && KeySet(order[..0]) == {} && order[0..] == order && order[0] in order;
  }

  lemma {:induction false} SumIsBytes(order: seq<Entry>, programs: map<Key, Program>)
    requires MadeOf(order, programs) && DistinctKeys(order)
    ensures KeySet(order) <= programs.Keys
    ensures Sum(order) == BytesOf(programs, KeySet(order)) && |order| == |KeySet(order)|
  {
    if order != [] {
      assert MadeOf(order[1..], programs) && order[0].bytes == SizeOf(programs[order[0].key]);
      FirstKey(order);
      hide KeySet, DistinctKeys, SizeOf, EntryOf;
      SumIsBytes(order[1..], programs);
      BytesOfOne(programs, KeySet(order), order[0].key);
      hide MadeOf;
    }
  }

  /** All programs are usable and within the budget. */
  ghost predicate Within(programs: map<Key, Program>, budget: Budget) {
    && (forall key :: key in programs ==> Whole(programs[key]))
    && |programs| <= budget.entries && BytesOf(programs, programs.Keys) <= budget.bytes
  }

  /** The last of the evicted programs. */
  ghost predicate LastEvicted(before: map<Key, Program>, after: map<Key, Program>, key: Key) {
    && key in before && key !in after
    && forall a :: a in before && a !in after && a != key ==> Sooner(a, before[a], key, before[key])
  }

  /** What is left is usable and within the budget, everything evicted comes before it in the order
      of use, and evicting one program less would not do. */
  ghost predicate RightlyEvicted(before: map<Key, Program>, after: map<Key, Program>, budget: Budget) {
    && after.Keys <= before.Keys && (forall key :: key in after ==> after[key] == before[key])
    && Within(after, budget)
    && (forall a, b :: a in before && a !in after && b in after ==> Sooner(a, before[a], b, before[b]))
    && (forall key :: LastEvicted(before, after, key) ==> !Within(after[key := before[key]], budget))
  }

  /** The evicted keys, each once and in the order of use. */
  ghost predicate ListsEvicted(before: map<Key, Program>, after: map<Key, Program>, keys: seq<Key>) {
    && (forall key :: key in keys <==> key in before && key !in after)
    && forall i, j :: 0 <= i < j < |keys| ==>
         keys[i] in before && keys[j] in before && Sooner(keys[i], before[keys[i]], keys[j], before[keys[j]]) && keys[i] != keys[j]
  }

  /** The numbers and names of the report are those of the files. */
  ghost predicate Reports(before: map<Key, Program>, after: map<Key, Program>, report: Report) {
    && report.beforeBytes == BytesOf(before, before.Keys) && report.afterBytes == BytesOf(after, after.Keys)
    && report.beforeEntries == |before| && report.afterEntries == |after|
    && ListsEvicted(before, after, report.evicted)
  }

  lemma EvictedInOrder(order: seq<Entry>, before: map<Key, Program>, k: nat, after: map<Key, Program>)
    requires MadeOf(order, before) && Ordered(order) && DistinctKeys(order) && KeySet(order) == before.Keys
    requires k <= |order| && after == before - KeySet(order[..k])
    ensures ListsEvicted(before, after, Keys(order[..k]))
  {
    var keys := Keys(order[..k]);
    forall key ensures key in keys <==> key in KeySet(order[..k]) {
      if key in keys {
        var i :| 0 <= i < |keys| && keys[i] == key;
        assert order[..k][i] in order[..k];
      }
      if key in KeySet(order[..k]) {
        var e :| e in order[..k] && e.key == key;
        var i :| 0 <= i < k && order[..k][i] == e;
        assert keys[i] == key;
      }
    }
    assert KeySet(order[..k]) <= KeySet(order);
    forall i, j | 0 <= i < j < k
      ensures keys[i] in before && keys[j] in before && keys[i] != keys[j]
      ensures Sooner(keys[i], before[keys[i]], keys[j], before[keys[j]])
    {
      SoonerIsOneWay(order, before, i, j);
    }
    hide Sooner, MadeOf, Ordered, KeySet;
  }

  lemma SortedIsMadeOf(programs: map<Key, Program>, names: seq<Key>)
    requires Lists(names, programs.Keys)
    ensures MadeOf(Sort(EntriesOf(programs, names)), programs)
  {
    var entries := EntriesOf(programs, names);
    assert MadeOf(entries, programs);
    hide *;
    ListedEntries(programs, names);
    SortSorts(entries);
    SameElements(Sort(entries), entries);
    SameMadeOf(Sort(entries), entries, programs);
  }

  lemma SameMadeOf(a: seq<Entry>, b: seq<Entry>, programs: map<Key, Program>)
    requires MadeOf(b, programs) && forall e :: e in a <==> e in b
    ensures MadeOf(a, programs)
  {
    forall i | 0 <= i < |a| ensures a[i].key in programs && a[i] == EntryOf(a[i].key, programs[a[i].key]) {
      assert a[i] in a;
    }
  }

  lemma SuffixIsMadeOf(order: seq<Entry>, programs: map<Key, Program>, k: nat)
    requires MadeOf(order, programs) && DistinctKeys(order) && k <= |order|
    ensures MadeOf(order[k..], programs) && DistinctKeys(order[k..])
  {
  }

  lemma BytesOfSame(programs: map<Key, Program>, programs': map<Key, Program>, keys: set<Key>)
    requires keys <= programs.Keys && keys <= programs'.Keys && forall key :: key in keys ==> programs[key] == programs'[key]
    ensures BytesOf(programs, keys) == BytesOf(programs', keys)
    decreases keys
  {
    if keys != {} {
      var key :| key in keys;
      BytesOfOne(programs, keys, key);
      BytesOfOne(programs', keys, key);
      BytesOfSame(programs, programs', keys - {key});
    }
  }

  lemma IndexOfKey(order: seq<Entry>, k: nat, key: Key) returns (j: nat)
    requires k <= |order| && key in KeySet(order[k..])
    ensures k <= j < |order| && order[j].key == key
  {
    var e :| e in order[k..] && e.key == key;
    var i :| 0 <= i < |order[k..]| && order[k..][i] == e;
    j := k + i;
  }

  lemma KeyAtIndex(order: seq<Entry>, k: nat, j: nat)
    requires k <= j < |order|
    ensures order[j].key in KeySet(order[k..])
  {
    assert order[k..][j - k] == order[j] && order[j] in order[k..];
  }

  lemma CompleteIsWhole(order: seq<Entry>, programs: map<Key, Program>, k: nat, after: map<Key, Program>)
    requires MadeOf(order, programs) && k <= |order|
    requires after.Keys == KeySet(order[k..]) && forall key :: key in after ==> key in programs && after[key] == programs[key]
    ensures (forall j :: k <= j < |order| ==> !order[j].incomplete) <==> forall key :: key in after ==> Whole(after[key])
  {
    hide KeySet;
    forall j | k <= j < |order| ensures order[j].key in after && (order[j].incomplete <==> !Whole(after[order[j].key]))
    {
      KeyAtIndex(order, k, j);
    }
    forall key | key in after ensures exists j :: k <= j < |order| && order[j].key == key {
      var j := IndexOfKey(order, k, key);
    }
  }

  /** Fitting, for the programs that are left. */
  lemma FitsIsWithin(order: seq<Entry>, programs: map<Key, Program>, budget: Budget, k: nat, after: map<Key, Program>)
    requires MadeOf(order, programs) && DistinctKeys(order) && k <= |order|
    requires after.Keys == KeySet(order[k..]) && forall key :: key in after ==> key in programs && after[key] == programs[key]
    ensures Fits(order, budget, k) <==> Within(after, budget)
    ensures Sum(order[k..]) == BytesOf(after, after.Keys) && |order| - k == |after|
  {
    SuffixIsMadeOf(order, programs, k);
    CompleteIsWhole(order, programs, k, after);
    hide DistinctKeys, KeySet, MadeOf, Whole;
    SumIsBytes(order[k..], programs);
    BytesOfSame(programs, after, after.Keys);
    hide BytesOf, Sum;
    assert |after| == |after.Keys|;
  }

  lemma SoonerIsOneWay(order: seq<Entry>, programs: map<Key, Program>, i: nat, j: nat)
    requires MadeOf(order, programs) && Ordered(order) && DistinctKeys(order) && i < j < |order|
    ensures var a, b := order[i].key, order[j].key;
            Sooner(a, programs[a], b, programs[b]) && !Sooner(b, programs[b], a, programs[a])
  {
    var a, b := order[i].key, order[j].key;
    BeforeIsTotal(order[i], order[j]);
    BeforeIsSooner(a, programs[a], b, programs[b]);
    BeforeIsSooner(b, programs[b], a, programs[a]);
    hide Before, Sooner;
  }

  lemma NotInTail(order: seq<Entry>, k: nat, i: nat)
    requires k <= |order| && i < |order| && order[i].key !in KeySet(order[k..])
    ensures i < k
  {
    if i >= k { KeyAtIndex(order, k, i); }
  }

  lemma EvictedAreSooner(order: seq<Entry>, before: map<Key, Program>, k: nat, after: map<Key, Program>, a: Key, b: Key)
    requires MadeOf(order, before) && Ordered(order) && DistinctKeys(order) && KeySet(order) == before.Keys
    requires k <= |order| && after == before - KeySet(order[..k]) && a in before && a !in after && b in after
    ensures Sooner(a, before[a], b, before[b])
  {
    RemainingPrograms(before, order, k);
    assert order[0..] == order;
    hide KeySet, Sooner;
    var i := IndexOfKey(order, 0, a);
    var j := IndexOfKey(order, k, b);
    NotInTail(order, k, i);
    SoonerIsOneWay(order, before, i, j);
  }

  lemma LastIsEvicted(before: map<Key, Program>, after: map<Key, Program>, key: Key)
    requires LastEvicted(before, after, key)
    ensures key in before && key !in after
  {
    hide Sooner;
  }

  lemma OneLessIsNotEnough(order: seq<Entry>, before: map<Key, Program>, budget: Budget, k: nat, after: map<Key, Program>, key: Key)
    requires MadeOf(order, before) && Ordered(order) && DistinctKeys(order) && KeySet(order) == before.Keys
    requires IsShortest(order, budget, k) && after == before - KeySet(order[..k]) && LastEvicted(before, after, key)
    ensures !Within(after[key := before[key]], budget)
  {
    LastIsLast(order, before, k, after, key);
    LastIsEvicted(before, after, key);
    assert k <= |order| && !Fits(order, budget, k - 1);
    var more := after[key := before[key]];
    assert forall b :: b in more ==> b in before && more[b] == before[b];
    hide *;
    FitsIsWithin(order, before, budget, k - 1, more);
  }

  /** The shortest prefix, for the files. */
  lemma ShortestIsRight(order: seq<Entry>, before: map<Key, Program>, budget: Budget, k: nat, after: map<Key, Program>)
    requires MadeOf(order, before) && Ordered(order) && DistinctKeys(order) && KeySet(order) == before.Keys
    requires IsShortest(order, budget, k) && after == before - KeySet(order[..k])
    ensures RightlyEvicted(before, after, budget)
    ensures Sum(order[k..]) == BytesOf(after, after.Keys) && |order| - k == |after|
    ensures Sum(order) == BytesOf(before, before.Keys) && |order| == |before|
  {
    assert k <= |order| && Fits(order, budget, k);
    assert order[0..] == order;
    assert forall key :: key in after ==> key in before && after[key] == before[key];
    assert after.Keys <= before.Keys;
    hide *;
    RemainingPrograms(before, order, k);
    FitsIsWithin(order, before, budget, k, after);
    FitsIsWithin(order, before, budget, 0, before);
    forall a, b | a in before && a !in after && b in after
      ensures Sooner(a, before[a], b, before[b])
    {
      EvictedAreSooner(order, before, k, after, a, b);
    }
    forall key | LastEvicted(before, after, key)
      ensures key in before && !Within(after[key := before[key]], budget)
    {
      LastIsEvicted(before, after, key);
      OneLessIsNotEnough(order, before, budget, k, after, key);
    }
    RightlyMeans(before, after, budget);
  }

  lemma RightlyMeans(before: map<Key, Program>, after: map<Key, Program>, budget: Budget)
    requires after.Keys <= before.Keys && (forall key :: key in after ==> after[key] == before[key]) && Within(after, budget)
    requires forall a, b :: a in before && a !in after && b in after ==> Sooner(a, before[a], b, before[b])
    requires forall key :: LastEvicted(before, after, key) ==> key in before && !Within(after[key := before[key]], budget)
    ensures RightlyEvicted(before, after, budget)
  {
    hide Within, Sooner, LastEvicted;
  }

  lemma LastIsLast(order: seq<Entry>, before: map<Key, Program>, k: nat, after: map<Key, Program>, key: Key)
    requires MadeOf(order, before) && Ordered(order) && DistinctKeys(order) && KeySet(order) == before.Keys
    requires k <= |order| && after == before - KeySet(order[..k]) && LastEvicted(before, after, key)
    ensures 0 < k && order[k - 1].key == key && after[key := before[key]].Keys == KeySet(order[k - 1..])
  {
    RemainingPrograms(before, order, k);
    assert order[0..] == order;
    hide KeySet, Sooner;
    var i := IndexOfKey(order, 0, key);
    NotInTail(order, k, i);
    var last := order[k - 1].key;
    KeyAtIndex(order, 0, k - 1);
    if last in after {
      var j := IndexOfKey(order, k, last);
    }
    if i < k - 1 { SoonerIsOneWay(order, before, i, k - 1); }
    KeyTail(order, k - 1);
  }

  lemma KeyTail(order: seq<Entry>, k: nat)
    requires k < |order|
    ensures KeySet(order[k..]) == KeySet(order[k + 1..]) + {order[k].key}
  {
    assert order[k..] == [order[k]] + order[k + 1..];
  }
}
