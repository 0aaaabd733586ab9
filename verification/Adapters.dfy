/** The callbacks that turn the walk into a graph search: IgnoreDuplicateDirs and
    IgnoreDuplicateFiles, each a wrapper around an inner callback and a filter of files seen. */
module Adapters {
  import opened Entries
  import opened Protocol
  import opened Ledger

  datatype Kind = Dirs | Files

  /** The filter, and the calls passed on to the inner callback so far. */
  datatype Memory = Memory(seen: set<FileKey>, inner: seq<Call>)

  const NOTHING: Memory := Memory({}, [])

  /** The inner callback may remember its own calls. */
  type Inner = (seq<Call>, Call) -> Error

  /** isDir. On a static file system Info and Stat of an entry that is no link agree. */
  predicate IsDirCall(fs: FileSystem, c: Call) {
    || c.typ == Directory
    || (c.typ == Symlink && fs.stat(c.path).Some? && fs.stat(c.path).value.typ == Directory)
  }

  datatype Lookup = Lookup(memory: Memory, seen: bool)

  /** EntryFilter.Entry: an entry that cannot be statted counts as seen. */
  function Entry(fs: FileSystem, m: Memory, c: Call): Lookup {
    match fs.stat(c.path)
    case None => Lookup(m, true)
    case Some(info) => Lookup(m.(seen := m.seen + {info.key}), info.key in m.seen)
  }

  datatype Reply = Reply(memory: Memory, err: Error)

  function IgnoreDuplicateDirs(fs: FileSystem, inner: Inner, m: Memory, c: Call): Reply {
    var err := inner(m.inner, c);
    var m' := m.(inner := m.inner + [c]);
    if err != Nil then
      Reply(if err != SkipDir && IsDirCall(fs, c) then Entry(fs, m', c).memory else m', err)
    else if IsDirCall(fs, c) then
      var found := Entry(fs, m', c);
      Reply(found.memory, if found.seen then SkipDir else if c.typ == Symlink then TraverseLink else Nil)
    else Reply(m', Nil)
  }

  function IgnoreDuplicateFiles(fs: FileSystem, inner: Inner, m: Memory, c: Call): Reply {
    var found := Entry(fs, m, c);
    if found.seen then Reply(found.memory, if IsDirCall(fs, c) then SkipDir else Nil)
    else
      var err := inner(found.memory.inner, c);
      var m' := found.memory.(inner := found.memory.inner + [c]);
      Reply(m', if err == Nil && c.typ == Symlink && IsDirCall(fs, c) then TraverseLink else err)
  }

  function Answer(kind: Kind, fs: FileSystem, inner: Inner, m: Memory, c: Call): Reply {
    match kind
    case Dirs => IgnoreDuplicateDirs(fs, inner, m, c)
    case Files => IgnoreDuplicateFiles(fs, inner, m, c)
  }

  function Remember(kind: Kind, fs: FileSystem, inner: Inner, m: Memory, e: Event): Memory {
    if e.Called? then Answer(kind, fs, inner, m, e.call).memory else m
  }

  /** The adapter's memory after the events of `log`, starting from `m`. */
  function Replay(kind: Kind, fs: FileSystem, inner: Inner, m: Memory, log: seq<Event>): Memory
    decreases |log|
  {
    if log == [] then m else Replay(kind, fs, inner, Remember(kind, fs, inner, m, log[0]), log[1..])
  }

  /** The wrapped callback, as a callback that knows what happened before. */
  function Wrapped(kind: Kind, fs: FileSystem, inner: Inner): (seq<Event>, Call) -> Error {
    (log: seq<Event>, c: Call) => Answer(kind, fs, inner, Replay(kind, fs, inner, NOTHING, log), c).err
  }

  lemma {:induction false} ReplayAppend(kind: Kind, fs: FileSystem, inner: Inner, m: Memory, a: seq<Event>,
                                        b: seq<Event>)
    ensures Replay(kind, fs, inner, m, a + b) == Replay(kind, fs, inner, Replay(kind, fs, inner, m, a), b)
    decreases |a|
  {
    if a == [] {
      assert a + b == b;
    } else {
      assert (a + b)[1..] == a[1..] + b;
      ReplayAppend(kind, fs, inner, Remember(kind, fs, inner, m, a[0]), a[1..], b);
    }
  }

  /** The filter holds exactly what calls put there. */
  lemma {:induction false} SeenWasCalled(kind: Kind, fs: FileSystem, inner: Inner, m: Memory, log: seq<Event>,
                                         k: FileKey)
    requires k in Replay(kind, fs, inner, m, log).seen
    ensures k in m.seen || exists c :: Called(c) in log && fs.stat(c.path).Some? && fs.stat(c.path).value.key == k
    decreases |log|
  {
    if log == [] {
    } else {
      SeenWasCalled(kind, fs, inner, Remember(kind, fs, inner, m, log[0]), log[1..], k);
    }
  }

  ghost function CallOfKey(fs: FileSystem, k: FileKey): Call -> nat {
    (c: Call) => if fs.stat(c.path).Some? && fs.stat(c.path).value.key == k then 1 else 0
  }

  /** Under IgnoreDuplicateFiles, over any sequence of calls, the inner callback is called for a
      file exactly once if the file has been seen, and never otherwise. */
  lemma {:induction false} InnerCalledOncePerSeen(fs: FileSystem, inner: Inner, m: Memory, log: seq<Event>, k: FileKey)
    requires Sum(m.inner, CallOfKey(fs, k)) == if k in m.seen then 1 else 0
    ensures var m' := Replay(Files, fs, inner, m, log);
            Sum(m'.inner, CallOfKey(fs, k)) == if k in m'.seen then 1 else 0
    decreases |log|
  {
    if log == [] {
    } else {
      var e := log[0];
      if e.Called? {
        SumLast(m.inner, e.call, CallOfKey(fs, k));
      }
      InnerCalledOncePerSeen(fs, inner, Remember(Files, fs, inner, m, e), log[1..], k);
    }
  }
}
