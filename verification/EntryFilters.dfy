/** EntryFilter: eight shards under a mutex each. Seen from one goroutine it is a set of files;
    with any number of goroutines, of all the calls for one file exactly one is told "not seen". */
module EntryFilters {
  import opened Entries
  import opened Protocol
  import opened Ledger
  import A = Adapters

  const SHARDS: nat := 8

  // ----- one goroutine

  class EntryFilter {
    const ents: array<set<FileKey>>

    ghost predicate Valid()
      reads this, ents
    {
      && ents.Length == SHARDS
      && forall i :: 0 <= i < SHARDS ==> forall k :: k in ents[i] ==> k.ino % SHARDS == i
    }

    /** The files seen, in whichever shard. */
    ghost function Keys(): set<FileKey>
      reads this, ents
      requires Valid()
    {
      ents[0] + ents[1] + ents[2] + ents[3] + ents[4] + ents[5] + ents[6] + ents[7]
    }

    constructor ()
      ensures Valid() && Keys() == {} && fresh(ents)
    {
      ents := new set<FileKey>[SHARDS](_ => {});
    }

    /** A file is only ever looked up, and put, in the shard of its inode. */
    lemma KeyInShard(k: FileKey)
      requires Valid()
      ensures k in Keys() <==> k in ents[k.ino % SHARDS]
    {
    }

    method Seen(dev: nat, ino: nat) returns (seen: bool)
      requires Valid()
      modifies ents
      ensures Valid()
      ensures seen == (FileKey(dev, ino) in old(Keys()))
      ensures Keys() == old(Keys()) + {FileKey(dev, ino)}
    {
      var i := ino % SHARDS;
      var key := FileKey(dev, ino);
      KeyInShard(key);
      seen := key in ents[i];
      if !seen {
        ents[i] := ents[i] + {key};
      }
      forall k
        ensures k in Keys() <==> k in old(Keys()) || k == key
      {
        KeyInShard(k);
      }
    }

    /** Entry: what cannot be statted counts as seen. */
    method Entry(info: Option<FileInfo>) returns (seen: bool)
      requires Valid()
      modifies ents
      ensures Valid()
      ensures seen == (info.None? || info.value.key in old(Keys()))
      ensures Keys() == old(Keys()) + if info.Some? then {info.value.key} else {}
    {
      if info.None? {
        return true;
      }
      seen := Seen(info.value.key.dev, info.value.key.ino);
    }
  }

  /** The closures of IgnoreDuplicateDirs and IgnoreDuplicateFiles over their shared filter. */
  class Adapter {
    const fs: FileSystem
    const walkFn: A.Inner
    const filter: EntryFilter
    var calls: seq<Call>

    ghost predicate Valid()
      reads this, filter, filter.ents
    {
      filter.Valid()
    }

    ghost function State(): A.Memory
      reads this, filter, filter.ents
      requires Valid()
    {
      A.Memory(filter.Keys(), calls)
    }

    constructor (fs: FileSystem, walkFn: A.Inner)
      ensures Valid() && State() == A.NOTHING && this.fs == fs && this.walkFn == walkFn
      ensures fresh(filter) && fresh(filter.ents)
    {
      this.fs, this.walkFn, calls := fs, walkFn, [];
      filter := new EntryFilter();
    }

    /** The call of the wrapped callback. */
    method CallWalkFn(c: Call) returns (err: Error)
      requires Valid()
      modifies `calls
      ensures Valid() && err == walkFn(old(calls), c) && calls == old(calls) + [c]
    {
      err := walkFn(calls, c);
      calls := calls + [c];
    }

    method IgnoreDuplicateDirs(c: Call) returns (err: Error)
      requires Valid()
      modifies `calls, filter.ents
      ensures Valid()
      ensures A.Reply(State(), err) == A.IgnoreDuplicateDirs(fs, walkFn, old(State()), c)
    {
      err := CallWalkFn(c);
      var isDir := A.IsDirCall(fs, c);
      if err != Nil {
        if err != SkipDir && isDir {
          var _ := filter.Entry(fs.stat(c.path));
        }
        return err;
      }
      if isDir {
        err := EnterDir(c);
      }
    }

    /** A directory is entered the first time. */
    method EnterDir(c: Call) returns (err: Error)
      requires Valid()
      modifies filter.ents
      ensures Valid()
      ensures var found := A.Entry(fs, old(State()), c);
              && State() == found.memory
              && err == if found.seen then SkipDir else if c.typ == Symlink then TraverseLink else Nil
    {
      var seen := filter.Entry(fs.stat(c.path));
      if seen {
        return SkipDir;
      }
      return if c.typ == Symlink then TraverseLink else Nil;
    }

    method IgnoreDuplicateFiles(c: Call) returns (err: Error)
      requires Valid()
      modifies `calls, filter.ents
      ensures Valid()
      ensures A.Reply(State(), err) == A.IgnoreDuplicateFiles(fs, walkFn, old(State()), c)
    {
      var isDir := A.IsDirCall(fs, c);
      var seen := filter.Entry(fs.stat(c.path));
      if seen {
        return if isDir then SkipDir else Nil;
      }
      err := CallWalkFn(c);
      if err == Nil && c.typ == Symlink && isDir {
        err := TraverseLink;
      }
    }
  }

  // ----- many goroutines

  /** A call of `seen`, from its start to its answer. */
  datatype Caller =
    | Waiting(key: FileKey)                 // before m.mu.Lock()
    | Holding(key: FileKey)                 // has the lock
    | Missed(key: FileKey)                  // has looked, and the key was not there
    | Leaving(key: FileKey, seen: bool)     // before m.mu.Unlock()
    | Answered(key: FileKey, seen: bool)

  datatype Filter = Filter(shards: seq<set<FileKey>>, locks: seq<Option<nat>>, callers: seq<Caller>)

  function Shard(k: FileKey): nat {
    k.ino % SHARDS
  }

  predicate HasLock(c: Caller) {
    c.Holding? || c.Missed? || c.Leaving?
  }

  predicate CanStep(f: Filter, i: nat)
    requires |f.locks| == SHARDS
  {
    i < |f.callers| && !f.callers[i].Answered? && (f.callers[i].Waiting? ==> f.locks[Shard(f.callers[i].key)].None?)
  }

  /** Caller `i` takes its next step: it locks, looks, inserts, or unlocks. */
  function StepOf(f: Filter, i: nat): Filter
    requires |f.locks| == |f.shards| == SHARDS && CanStep(f, i)
  {
    var c := f.callers[i];
    var s := Shard(c.key);
    match c
    case Waiting(k) => f.(locks := f.locks[s := Some(i)], callers := f.callers[i := Holding(k)])
    case Holding(k) => f.(callers := f.callers[i := if k in f.shards[s] then Leaving(k, true) else Missed(k)])
    case Missed(k) => f.(shards := f.shards[s := f.shards[s] + {k}], callers := f.callers[i := Leaving(k, false)])
    case Leaving(k, seen) => f.(locks := f.locks[s := None], callers := f.callers[i := Answered(k, seen)])
  }

  predicate Steps(f: Filter, sched: seq<nat>, f': Filter)
    requires |f.locks| == |f.shards| == SHARDS
    decreases |sched|
  {
    if sched == [] then f' == f
    else CanStep(f, sched[0]) && Steps(StepOf(f, sched[0]), sched[1..], f')
  }

  function Start(keys: seq<FileKey>): Filter {
    Filter(seq(SHARDS, _ => {}), seq(SHARDS, _ => None), seq(|keys|, i requires 0 <= i < |keys| => Waiting(keys[i])))
  }

  ghost function ToldNew(k: FileKey): Caller -> nat {
    (c: Caller) => if (c.Leaving? || c.Answered?) && !c.seen && c.key == k then 1 else 0
  }

  ghost predicate LockInv(f: Filter) {
    && |f.locks| == |f.shards| == SHARDS
    && (forall i :: 0 <= i < |f.callers| && HasLock(f.callers[i]) ==> f.locks[Shard(f.callers[i].key)] == Some(i))
    && (forall i :: 0 <= i < |f.callers| && f.callers[i].Missed? ==>
          f.callers[i].key !in f.shards[Shard(f.callers[i].key)])
    && (forall i :: 0 <= i < |f.callers| && (f.callers[i].Leaving? || f.callers[i].Answered?) ==>
          f.callers[i].key in f.shards[Shard(f.callers[i].key)])
    && (forall s, k :: 0 <= s < SHARDS && k in f.shards[s] ==> Shard(k) == s)
    && (forall s :: 0 <= s < SHARDS && f.locks[s].Some? ==>
          && f.locks[s].value < |f.callers| && HasLock(f.callers[f.locks[s].value])
          && Shard(f.callers[f.locks[s].value].key) == s)
  }

  /** One caller has been told that `k` is new exactly if `k` is in the filter. */
  ghost predicate OneFirst(f: Filter, k: FileKey)
    requires |f.shards| == SHARDS
  {
    Sum(f.callers, ToldNew(k)) == if k in f.shards[Shard(k)] then 1 else 0
  }

  lemma LockKeepsInv(f: Filter, i: nat)
    requires LockInv(f) && CanStep(f, i) && f.callers[i].Waiting?
    ensures LockInv(StepOf(f, i))
  {
  }

  lemma LookKeepsInv(f: Filter, i: nat)
    requires LockInv(f) && CanStep(f, i) && f.callers[i].Holding?
    ensures LockInv(StepOf(f, i))
  {
  }

  lemma InsertKeepsInv(f: Filter, i: nat)
    requires LockInv(f) && CanStep(f, i) && f.callers[i].Missed?
    ensures LockInv(StepOf(f, i))
  {
    var f' := StepOf(f, i);
    forall j | 0 <= j < |f'.callers| && f'.callers[j].Missed?
      ensures f'.callers[j].key !in f'.shards[Shard(f'.callers[j].key)]
    {
      assert f.locks[Shard(f.callers[j].key)] == Some(j);
    }
  }

  lemma UnlockKeepsInv(f: Filter, i: nat)
    requires LockInv(f) && CanStep(f, i) && f.callers[i].Leaving?
    ensures LockInv(StepOf(f, i))
  {
    var f' := StepOf(f, i);
    forall j | 0 <= j < |f'.callers| && HasLock(f'.callers[j])
      ensures f'.locks[Shard(f'.callers[j].key)] == Some(j)
    {
      assert f.locks[Shard(f.callers[j].key)] == Some(j);
    }
  }

  lemma StepKeepsFirst(f: Filter, i: nat, k: FileKey)
    requires LockInv(f) && CanStep(f, i) && OneFirst(f, k)
    ensures OneFirst(StepOf(f, i), k)
  {
    SumUpdate(f.callers, i, StepOf(f, i).callers[i], ToldNew(k));
  }

  lemma StepKeeps(f: Filter, i: nat, k: FileKey)
    requires LockInv(f) && CanStep(f, i) && OneFirst(f, k)
    ensures LockInv(StepOf(f, i)) && OneFirst(StepOf(f, i), k)
  {
    StepKeepsFirst(f, i, k);
    match f.callers[i] {
      case Waiting(_) => LockKeepsInv(f, i);
      case Holding(_) => LookKeepsInv(f, i);
      case Missed(_) => InsertKeepsInv(f, i);
      case Leaving(_, _) => UnlockKeepsInv(f, i);
    }
  }

  lemma {:induction false} StepsKeep(f: Filter, sched: seq<nat>, f': Filter, k: FileKey)
    requires LockInv(f) && OneFirst(f, k) && Steps(f, sched, f')
    ensures LockInv(f') && OneFirst(f', k)
    decreases |sched|
  {
    if sched == [] {
    } else {
      StepKeeps(f, sched[0], k);
      StepsKeep(StepOf(f, sched[0]), sched[1..], f', k);
    }
  }

  lemma {:induction false} StepsKeepKeys(f: Filter, sched: seq<nat>, f': Filter)
    requires |f.locks| == |f.shards| == SHARDS && Steps(f, sched, f')
    ensures |f'.callers| == |f.callers|
    ensures forall i :: 0 <= i < |f.callers| ==> f'.callers[i].key == f.callers[i].key
    decreases |sched|
  {
    if sched == [] {
    } else {
      StepsKeepKeys(StepOf(f, sched[0]), sched[1..], f');
    }
  }

  /** In any interleaving of any calls: when all are answered, of those for one file exactly one was
      told that it is new. */
  lemma ExactlyOneFirst(keys: seq<FileKey>, sched: seq<nat>, f: Filter, k: FileKey)
    requires Steps(Start(keys), sched, f)
    requires forall i :: 0 <= i < |f.callers| ==> f.callers[i].Answered?
    ensures Sum(f.callers, ToldNew(k)) == if k in keys then 1 else 0
  {
    var s := Start(keys);
    SumZero(s.callers, ToldNew(k));
    StepsKeep(s, sched, f, k);
    StepsKeepKeys(s, sched, f);
    if k in keys {
      var i :| 0 <= i < |keys| && keys[i] == k;
      assert f.callers[i].key == k && f.callers[i].Answered?;
    } else if Sum(f.callers, ToldNew(k)) > 0 {
      var i := SumWitness(f.callers, ToldNew(k));
    }
  }

  /** ... and that one came first: whoever is told that the file has been seen finds it inserted by
      another caller, who has been told that it is new. */
  lemma SeenOnlyAfterFirst(keys: seq<FileKey>, sched: seq<nat>, f: Filter, i: nat) returns (j: nat)
    requires Steps(Start(keys), sched, f) && i < |f.callers|
    requires (f.callers[i].Leaving? || f.callers[i].Answered?) && f.callers[i].seen
    ensures j < |f.callers| && j != i
    ensures (f.callers[j].Leaving? || f.callers[j].Answered?) && !f.callers[j].seen
    ensures f.callers[j].key == f.callers[i].key
  {
    var k := f.callers[i].key;
    var s := Start(keys);
    SumZero(s.callers, ToldNew(k));
    StepsKeep(s, sched, f, k);
    StepsKeepKeys(s, sched, f);
    j := SumWitness(f.callers, ToldNew(k));
  }

  /** No call waits for ever: as long as one is not answered, some caller can step. */
  lemma FilterDeadlockFree(keys: seq<FileKey>, sched: seq<nat>, f: Filter, i: nat) returns (j: nat)
    requires Steps(Start(keys), sched, f) && i < |f.callers| && !f.callers[i].Answered?
    ensures |f.locks| == SHARDS && CanStep(f, j)
  {
    var k := f.callers[i].key;
    SumZero(Start(keys).callers, ToldNew(k));
    StepsKeep(Start(keys), sched, f, k);
    j := i;
    if f.callers[i].Waiting? && f.locks[Shard(k)].Some? {
      j := f.locks[Shard(k)].value;
    }
  }
}
