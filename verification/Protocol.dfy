/** The parallel walk as a transition system: a coordinator with a stack of pending items,
    `numWorkers` workers, three bounded channels and the close-only `donec`. One action is one
    channel operation or one callback invocation of one goroutine; the scheduler may pick any
    enabled action. */
module Protocol {
  import opened Entries

  const STAT_ERROR: Error := Failure(2)
  const DEPTH_MODULUS: nat := 0x1_0000_0000  // unixDirent.depth is a uint32

  datatype Call = Call(path: Path, typ: FileType, depth: nat, err: Error)

  datatype Item = Item(dir: Path, typ: FileType, depth: nat, callbackDone: bool)

  /** What a run leaves behind: items picked up, callbacks made, directories opened. */
  datatype Event = Picked(item: Item) | Called(call: Call) | Opened(dir: Path)

  /** `fn` answers a call knowing everything that happened before it, so it stands for a
      callback with any internal state. */
  datatype Config = Config(
    fs: FileSystem,
    root: Path,
    follow: bool,
    maxDepth: int,
    numWorkers: nat,
    fn: (seq<Event>, Call) -> Error)

  datatype Worker =
    | Idle                                                    // select on donec and workc
    | Entering(it: Item)                                      // at the start of walk
    | Reading(it: Item, rest: seq<DirEnt>, skipFiles: bool)   // in the loop of readDir
    | Enqueueing(it: Item, rest: seq<DirEnt>, skipFiles: bool, pending: Item)
    | Reporting(it: Item, err: Error)                         // second call of the callback
    | Sending(res: Error)                                     // walk has returned; select on donec and resc
    | Exited

  datatype Coordinator =
    | Selecting
    | Rechecking               // out == 0 and todo is empty: the non-blocking receive
    | Returning(err: Error)    // donec is closed; in wg.Wait
    | Returned(err: Error)

  datatype State = State(
    coord: Coordinator,
    todo: seq<Item>,
    out: int,
    workc: seq<Item>,
    enqueuec: seq<Item>,
    resc: seq<Error>,
    workers: seq<Worker>,
    log: seq<Event>)

  predicate Closed(s: State) {
    s.coord.Returning? || s.coord.Returned?
  }

  predicate Failed(s: State) {
    Closed(s) && s.coord.err != Nil
  }

  // ----- one walk, seen from inside a worker

  function ChildDepth(depth: nat): nat {
    (depth + 1) % DEPTH_MODULUS
  }

  predicate DepthLimited(cfg: Config, it: Item) {
    cfg.maxDepth > 0 && it.depth >= cfg.maxDepth
  }

  /** Every lexical ancestor of `path` can be statted and is not the file `key`. */
  predicate NoAncestorIs(fs: FileSystem, key: FileKey, path: Path)
    decreases |path|
  {
    path == [] ||
    var parent := Parent(path);
    && fs.stat(parent).Some?
    && fs.stat(parent).value.key != key
    && NoAncestorIs(fs, key, parent)
  }

  /** With Follow set, the root is the one directory in `ignoredDirs`. */
  predicate ShouldSkipDir(cfg: Config, key: FileKey) {
    cfg.follow && cfg.fs.stat(cfg.root).Some? && cfg.fs.stat(cfg.root).value.key == key
  }

  predicate ShouldTraverse(cfg: Config, path: Path) {
    match cfg.fs.stat(path)
    case None => false
    case Some(ts) => ts.typ == Directory && !ShouldSkipDir(cfg, ts.key) && NoAncestorIs(cfg.fs, ts.key, path)
  }

  datatype Decision = Decision(enqueue: bool, err: Error)

  /** What onDirEnt does once the callback has answered `r` for a non-directory. */
  function Decide(cfg: Config, typ: FileType, path: Path, r: Error): Decision {
    if typ != Symlink then Decision(false, r)
    else if r == TraverseLink && !cfg.follow then Decision(true, Nil)
    else
      var r' := if r == TraverseLink then Nil else r;
      if r' == SkipDir then Decision(false, Nil)
      else if r' == Nil && cfg.follow && ShouldTraverse(cfg, path) then Decision(true, Nil)
      else Decision(false, r')
  }

  function ItemCall(it: Item, err: Error): Call {
    Call(it.dir, it.typ, it.depth, err)
  }

  function EntryCall(it: Item, e: DirEnt): Call {
    Call(it.dir + [e.name], e.typ, ChildDepth(it.depth), Nil)
  }

  function ChildItem(it: Item, e: DirEnt): Item {
    Item(it.dir + [e.name], e.typ, ChildDepth(it.depth), e.typ != Directory)
  }

  /** walk after its callback: the depth check, then readDir. */
  function Open(cfg: Config, it: Item): Worker {
    if DepthLimited(cfg, it) then Sending(Nil) else Reading(it, cfg.fs.list(it.dir).entries, false)
  }

  function OpenEvents(cfg: Config, it: Item): seq<Event> {
    if DepthLimited(cfg, it) then [] else [Opened(it.dir)]
  }

  predicate Active(w: Worker) {
    w.Entering? || w.Reading? || w.Reporting?
  }

  datatype Move = Move(next: Worker, events: seq<Event>)

  function Advance(cfg: Config, w: Worker, log: seq<Event>): Move
    requires Active(w)
  {
    match w
    case Entering(it) =>
      if it.callbackDone then Move(Open(cfg, it), OpenEvents(cfg, it))
      else
        var c := ItemCall(it, Nil);
        var r := cfg.fn(log, c);
        if r == SkipDir then Move(Sending(Nil), [Called(c)])
        else if r != Nil then Move(Sending(r), [Called(c)])
        else Move(Open(cfg, it), [Called(c)] + OpenEvents(cfg, it))
    case Reading(it, rest, skipFiles) =>
      if rest == [] then
        var err := cfg.fs.list(it.dir).err;
        Move(if err == Nil then Sending(Nil) else Reporting(it, err), [])
      else
        var e, tail := rest[0], rest[1..];
        if skipFiles && e.typ == Regular then Move(Reading(it, tail, skipFiles), [])
        else if e.typ == Directory then Move(Enqueueing(it, tail, skipFiles, ChildItem(it, e)), [])
        else
          var c := EntryCall(it, e);
          var d := Decide(cfg, e.typ, c.path, cfg.fn(log, c));
          var next :=
            if d.enqueue then Enqueueing(it, tail, skipFiles, ChildItem(it, e))
            else if d.err == Nil then Reading(it, tail, skipFiles)
            else if d.err == SkipFiles then Reading(it, tail, true)
            else Reporting(it, d.err);
          Move(next, [Called(c)])
    case Reporting(it, err) =>
      var c := ItemCall(it, err);
      Move(Sending(cfg.fn(log, c)), [Called(c)])
  }

  // ----- the transition system

  datatype Action =
    | Feed           // workc <- workItem
    | Collect        // it := <-enqueuec
    | Receive        // err := <-resc
    | Recheck        // the inner select with its default
    | Join           // wg.Wait returns
    | Take(i: nat)   // it := <-workc
    | Quit(i: nat)   // <-donec, in either select of doWork
    | Go(i: nat)     // the worker's own next step
    | Push(i: nat)   // enqueuec <- it
    | Drop(i: nat)   // <-donec, in enqueue
    | Deliver(i: nat)  // resc <- result

  predicate IsWorkerAction(a: Action) {
    a.Take? || a.Quit? || a.Go? || a.Push? || a.Drop? || a.Deliver?
  }

  function RootItem(cfg: Config, info: FileInfo): Item {
    Item(cfg.root, info.typ, 0, false)
  }

  /** Walk gets going: there is a worker, and the root could be statted. */
  predicate Starts(cfg: Config, root: Item) {
    && cfg.numWorkers >= 1
    && cfg.fs.stat(cfg.root).Some?
    && root == RootItem(cfg, cfg.fs.stat(cfg.root).value)
  }

  /** Walk returns at once, before it starts a worker, if the root cannot be statted. */
  function Init(cfg: Config): State {
    match cfg.fs.stat(cfg.root)
    case None => State(Returned(STAT_ERROR), [], 0, [], [], [], [], [])
    case Some(info) =>
      State(Selecting, [RootItem(cfg, info)], 0, [], [], [], seq(cfg.numWorkers, i => Idle), [])
  }

  predicate Enabled(cfg: Config, s: State, a: Action) {
    match a
    case Feed => s.coord.Selecting? && s.todo != [] && |s.workc| < cfg.numWorkers
    case Collect => s.coord.Selecting? && s.enqueuec != []
    case Receive => s.coord.Selecting? && s.resc != []
    case Recheck => s.coord.Rechecking?
    case Join => s.coord.Returning? && forall i :: 0 <= i < |s.workers| ==> s.workers[i].Exited?
    case Take(i) => i < |s.workers| && s.workers[i].Idle? && s.workc != []
    case Quit(i) => i < |s.workers| && (s.workers[i].Idle? || s.workers[i].Sending?) && Closed(s)
    case Go(i) => i < |s.workers| && Active(s.workers[i])
    case Push(i) => i < |s.workers| && s.workers[i].Enqueueing? && |s.enqueuec| < cfg.numWorkers
    case Drop(i) => i < |s.workers| && s.workers[i].Enqueueing? && Closed(s)
    case Deliver(i) => i < |s.workers| && s.workers[i].Sending? && |s.resc| < cfg.numWorkers
  }

  function Apply(cfg: Config, s: State, a: Action): State
    requires Enabled(cfg, s, a)
  {
    match a
    case Feed =>
      var n := |s.todo| - 1;
      s.(todo := s.todo[..n], workc := s.workc + [s.todo[n]], out := s.out + 1)
    case Collect =>
      s.(todo := s.todo + [s.enqueuec[0]], enqueuec := s.enqueuec[1..])
    case Receive =>
      var err := s.resc[0];
      var coord :=
        if err != Nil then Returning(err)
        else if s.out - 1 == 0 && |s.todo| == 0 then Rechecking
        else Selecting;
      s.(coord := coord, out := s.out - 1, resc := s.resc[1..])
    case Recheck =>
      if s.enqueuec != [] then
        s.(coord := Selecting, todo := s.todo + [s.enqueuec[0]], enqueuec := s.enqueuec[1..])
      else s.(coord := Returning(Nil))
    case Join => s.(coord := Returned(s.coord.err))
    case Take(i) =>
      var it := s.workc[0];
      s.(workc := s.workc[1..], workers := s.workers[i := Entering(it)], log := s.log + [Picked(it)])
    case Quit(i) => s.(workers := s.workers[i := Exited])
    case Go(i) =>
      var m := Advance(cfg, s.workers[i], s.log);
      s.(workers := s.workers[i := m.next], log := s.log + m.events)
    case Push(i) =>
      var w := s.workers[i];
      s.(enqueuec := s.enqueuec + [w.pending], workers := s.workers[i := Reading(w.it, w.rest, w.skipFiles)])
    case Drop(i) =>
      var w := s.workers[i];
      s.(workers := s.workers[i := Reading(w.it, w.rest, w.skipFiles)])
    case Deliver(i) =>
      s.(resc := s.resc + [s.workers[i].res], workers := s.workers[i := Idle])
  }

  /** `acts` is a schedule that leads from `s` to `t`. */
  predicate Run(cfg: Config, s: State, acts: seq<Action>, t: State)
    decreases |acts|
  {
    if acts == [] then t == s
    else Enabled(cfg, s, acts[0]) && Run(cfg, Apply(cfg, s, acts[0]), acts[1..], t)
  }

  /** Some run of Walk ends with the result `err`. */
  ghost predicate CanReturn(cfg: Config, err: Error) {
    exists acts, s :: Run(cfg, Init(cfg), acts, s) && s.coord == Returned(err)
  }

  lemma {:induction false} RunExtend(cfg: Config, s: State, acts: seq<Action>, t: State, a: Action)
    requires Run(cfg, s, acts, t) && Enabled(cfg, t, a)
    ensures Run(cfg, s, acts + [a], Apply(cfg, t, a))
    decreases |acts|
  {
    if acts == [] {
      assert acts + [a] == [a] && [a][1..] == [];
    } else {
      assert (acts + [a])[1..] == acts[1..] + [a];
      RunExtend(cfg, Apply(cfg, s, acts[0]), acts[1..], t, a);
    }
  }

  /** A run from the start, and one more step. */
  lemma Then(cfg: Config, acts: seq<Action>, s: State, a: Action) returns (acts': seq<Action>, s': State)
    requires Run(cfg, Init(cfg), acts, s) && Enabled(cfg, s, a)
    ensures Run(cfg, Init(cfg), acts', s') && s' == Apply(cfg, s, a) && |acts'| == |acts| + 1
  {
    RunExtend(cfg, Init(cfg), acts, s, a);
    acts', s' := acts + [a], Apply(cfg, s, a);
  }

  /** The steps that feed and take one item. */
  lemma FeedOne(cfg: Config, s: State, it: Item)
    requires s.coord.Selecting? && s.todo == [it] && s.workc == [] && cfg.numWorkers >= 1
    ensures Enabled(cfg, s, Feed) && Apply(cfg, s, Feed) == s.(todo := [], workc := [it], out := s.out + 1)
  {
    assert s.todo[..0] == [] && s.workc + [it] == [it];
  }

  lemma TakeOne(cfg: Config, s: State, it: Item, i: nat)
    requires s.workc == [it] && i < |s.workers| && s.workers[i].Idle?
    ensures Enabled(cfg, s, Take(i))
    ensures Apply(cfg, s, Take(i))
         == s.(workc := [], workers := s.workers[i := Entering(it)], log := s.log + [Picked(it)])
  {
    assert s.workc[1..] == [];
  }

  lemma TakeFirst(cfg: Config, acts: seq<Action>, s: State, it: Item, i: nat) returns (acts': seq<Action>, s': State)
    requires Run(cfg, Init(cfg), acts, s) && cfg.numWorkers >= 1
    requires s.coord.Selecting? && s.todo == [it] && s.workc == [] && i < |s.workers| && s.workers[i].Idle?
    ensures Run(cfg, Init(cfg), acts', s') && |acts'| == |acts| + 2
    ensures s' == s.(todo := [], out := s.out + 1, workers := s.workers[i := Entering(it)], log := s.log + [Picked(it)])
  {
    var s1;
    FeedOne(cfg, s, it);
    acts', s1 := Then(cfg, acts, s, Feed);
    TakeOne(cfg, s1, it, i);
    acts', s' := Then(cfg, acts', s1, Take(i));
  }

  /** What a worker enqueues is put on the stack. */
  lemma Queue(cfg: Config, acts: seq<Action>, s: State, j: nat) returns (acts': seq<Action>, s': State)
    requires Run(cfg, Init(cfg), acts, s) && cfg.numWorkers >= 1 && s.coord.Selecting?
    requires s.enqueuec == [] && j < |s.workers| && s.workers[j].Enqueueing?
    ensures Run(cfg, Init(cfg), acts', s') && |acts'| == |acts| + 2
    ensures var w := s.workers[j];
            && s' == s.(todo := s.todo + [w.pending],
                        workers := s.workers[j := Reading(w.it, w.rest, w.skipFiles)])
  {
    var w := s.workers[j];
    var s1;
    acts', s1 := Then(cfg, acts, s, Push(j));
    assert s1.enqueuec == [w.pending] && s1.enqueuec[1..] == [];
    acts', s' := Then(cfg, acts', s1, Collect);
  }
}
