/** How often a search calls its callback: once for the root, and once for each entry of each reachable
    directory, by whatever path it comes to it. IgnoreDuplicateDirs passes all these calls on. */
module EntryCalls {
  import opened Entries
  import opened Protocol
  import opened Ledger
  import opened Safety
  import opened Graph
  import opened GraphSearch
  import opened AtMostOnce
  import opened ReadOnce
  import C = Consent
  import O = Ownership
  import W = GraphWalks
  import Paths

  /** `p` is the entry `name` of the directory `k`. */
  ghost predicate IsEntry(t: Search, k: FileKey, name: Name, p: Path) {
    |p| > |t.cfg.root| && Names(t.g, Parent(p), k) && p[|p| - 1] == name
  }

  ghost predicate IsCallFor(t: Search, k: FileKey, name: Name, c: Call) {
    c.err == Nil && IsEntry(t, k, name, c.path)
  }

  ghost function CallsEntry(t: Search, k: FileKey, name: Name): Call -> nat {
    (c: Call) => Once(IsCallFor(t, k, name, c))
  }

  ghost function LogsEntry(t: Search, k: FileKey, name: Name): Event -> nat {
    (e: Event) => Once(e.Called? && IsCallFor(t, k, name, e.call))
  }

  // ----- the calls still to come

  /** A queued directory is still to be called for. */
  ghost function Awaits(t: Search, k: FileKey, name: Name): Item -> nat {
    (it: Item) => Once(!it.callbackDone && IsEntry(t, k, name, it.dir))
  }

  ghost function IsNamed(name: Name): DirEnt -> nat {
    (e: DirEnt) => Once(e.name == name)
  }

  /** ... and so is what is left of a directory. */
  ghost function Left(t: Search, k: FileKey, name: Name, it: Item, rest: seq<DirEnt>): nat {
    if Names(t.g, it.dir, k) then Sum(rest, IsNamed(name)) else 0
  }

  ghost function AwaitedBy(t: Search, k: FileKey, name: Name, w: Worker): nat {
    match w
    case Entering(it) => Awaits(t, k, name)(it)
    case Reading(it, rest, _) => Left(t, k, name, it, rest)
    case Enqueueing(it, rest, _, pending) => Left(t, k, name, it, rest) + Awaits(t, k, name)(pending)
    case _ => 0
  }

  ghost function WorkerAwaits(t: Search, k: FileKey, name: Name): Worker -> nat {
    (w: Worker) => AwaitedBy(t, k, name, w)
  }

  /** The directory has an entry with this name. */
  ghost predicate HasEntry(t: Search, k: FileKey, i: nat) {
    IsDir(t.g, k) && i < |t.g.nodes[k].links|
  }

  ghost function NameOf(t: Search, k: FileKey, i: nat): Name
    requires HasEntry(t, k, i)
  {
    t.g.nodes[k].links[i].name
  }

  /** Each reading of the directory makes one call for the entry: it has been made, or is to come. */
  ghost predicate CallsExact(t: Search, s: State, k: FileKey, name: Name) {
    Sum(s.log, LogsEntry(t, k, name)) + Total(s, Awaits(t, k, name), WorkerAwaits(t, k, name))
    == Sum(s.log, OpensKey(t.g, k))
  }

  // ----- the entries of a directory

  lemma {:induction false} NamedOnce(es: seq<DirEnt>, i: nat, name: Name)
    requires i < |es| && es[i].name == name
    requires forall j :: 0 <= j < |es| && j != i ==> es[j].name != name
    ensures Sum(es, IsNamed(name)) == 1
  {
    SumUpdate(es, i, es[i], IsNamed(name));
    assert es == es[..i] + ([es[i]] + es[i + 1..]);
    SumAppend(es[..i], [es[i]] + es[i + 1..], IsNamed(name));
    SumFirst(es[i], es[i + 1..], IsNamed(name));
    SumZero(es[..i], IsNamed(name));
    SumZero(es[i + 1..], IsNamed(name));
  }

  /** The names in a directory are distinct. */
  lemma OneSuchEntry(t: Search, k: FileKey, i: nat, it: Item)
    requires Wraps(t) && HasEntry(t, k, i)
    ensures Left(t, k, NameOf(t, k, i), it, List(t.g, it.dir).entries) == Once(Names(t.g, it.dir, k))
  {
    if Names(t.g, it.dir, k) {
      var links := t.g.nodes[k].links;
      assert ValidLinks(t.g, links);
      NamedOnce(DirEnts(links), i, links[i].name);
    }
  }

  lemma OneEntryLess(t: Search, k: FileKey, name: Name, it: Item, rest: seq<DirEnt>)
    requires rest != [] && |it.dir| >= |t.cfg.root|
    ensures Left(t, k, name, it, rest)
         == Left(t, k, name, it, rest[1..]) + Once(IsEntry(t, k, name, it.dir + [rest[0].name]))
  {
    ParentOf(it.dir, rest[0].name);
  }

  // ----- the steps of a worker

  /** What the move makes of the calls still to come. */
  ghost predicate CallsKept(t: Search, w: Worker, m: Move, k: FileKey, name: Name) {
    Sum(m.events, LogsEntry(t, k, name)) + AwaitedBy(t, k, name, m.next)
    == AwaitedBy(t, k, name, w) + Sum(m.events, OpensKey(t.g, k))
  }

  lemma OneCall(t: Search, c: Call, k: FileKey, name: Name)
    ensures Sum([Called(c)], LogsEntry(t, k, name)) == Once(IsCallFor(t, k, name, c))
    ensures Sum([Called(c)], OpensKey(t.g, k)) == 0
  {
    SumOfTwo(Called(c), Called(c), LogsEntry(t, k, name));
    SumOfTwo(Called(c), Called(c), OpensKey(t.g, k));
  }

  lemma OneOpening(t: Search, c: Call, p: Path, k: FileKey, name: Name)
    ensures Sum([Opened(p)], LogsEntry(t, k, name)) == 0
    ensures Sum([Opened(p)], OpensKey(t.g, k)) == Once(Names(t.g, p, k))
    ensures Sum([Called(c), Opened(p)], LogsEntry(t, k, name)) == Once(IsCallFor(t, k, name, c))
    ensures Sum([Called(c), Opened(p)], OpensKey(t.g, k)) == Once(Names(t.g, p, k))
  {
    SumOfTwo(Opened(p), Opened(p), LogsEntry(t, k, name));
    SumOfTwo(Opened(p), Opened(p), OpensKey(t.g, k));
    SumOfTwo(Called(c), Opened(p), LogsEntry(t, k, name));
    SumOfTwo(Called(c), Opened(p), OpensKey(t.g, k));
  }

  lemma EnterCalls(t: Search, it: Item, log: seq<Event>, k: FileKey, i: nat)
    requires Searches(t) && SolidItem(t.g, it) && HasEntry(t, k, i)
    ensures CallsKept(t, Entering(it), Advance(t.cfg, Entering(it), log), k, NameOf(t, k, i))
  {
    EnterEffect(t, it, log);
    OneSuchEntry(t, k, i, it);
    OneCall(t, ItemCall(it, Nil), k, NameOf(t, k, i));
    OneOpening(t, ItemCall(it, Nil), it.dir, k, NameOf(t, k, i));
  }

  lemma SubdirCalls(t: Search, w: Worker, log: seq<Event>, k: FileKey, name: Name)
    requires Searches(t) && w.Reading? && w.rest != [] && SolidWorker(t, w) && w.rest[0].typ == Directory
    requires |w.it.dir| >= |t.cfg.root|
    ensures CallsKept(t, w, Advance(t.cfg, w, log), k, name)
  {
    SubdirEffect(t, w, log);
    OneEntryLess(t, k, name, w.it, w.rest);
  }

  lemma EntryCalled(t: Search, w: Worker, log: seq<Event>, m: Move, k: FileKey, name: Name)
    requires w.Reading? && w.rest != [] && w.rest[0].typ != Directory && |w.it.dir| >= |t.cfg.root|
    requires m.events == [Called(EntryCall(w.it, w.rest[0]))]
    requires || m.next == Enqueueing(w.it, w.rest[1..], false, ChildItem(w.it, w.rest[0]))
             || m.next == Reading(w.it, w.rest[1..], false)
    ensures CallsKept(t, w, m, k, name)
  {
    OneEntryLess(t, k, name, w.it, w.rest);
    OneCall(t, EntryCall(w.it, w.rest[0]), k, name);
  }

  lemma EndCalls(t: Search, w: Worker, m: Move, k: FileKey, name: Name)
    requires EndMove(t.cfg, w, m) && (w.Reporting? || (w.Reading? && w.rest == []))
    requires w.Reporting? ==> w.err != Nil
    ensures CallsKept(t, w, m, k, name)
  {
    if w.Reporting? {
      OneCall(t, ItemCall(w.it, w.err), k, name);
    }
  }

  lemma GoCalls(t: Search, w: Worker, log: seq<Event>, k: FileKey, i: nat)
    requires Searches(t) && Active(w) && SolidWorker(t, w) && InHand(t, log, w) && HasEntry(t, k, i)
    ensures CallsKept(t, w, Advance(t.cfg, w, log), k, NameOf(t, k, i))
  {
    var m := Advance(t.cfg, w, log);
    if w.Entering? {
      EnterCalls(t, w.it, log, k, i);
    } else if w.Reporting? || w.rest == [] {
      EndMoves(t.cfg, w, log);
      EndCalls(t, w, m, k, NameOf(t, k, i));
    } else if w.rest[0].typ == Directory {
      SubdirCalls(t, w, log, k, NameOf(t, k, i));
    } else {
      CalledEffect(t, w, log);
      EntryCalled(t, w, log, m, k, NameOf(t, k, i));
    }
  }

  // ----- the steps of the system

  lemma AwaitsPassedOn(t: Search, k: FileKey, name: Name)
    ensures PassedOn(Awaits(t, k, name), WorkerAwaits(t, k, name))
  {
  }

  lemma ChannelCalls(t: Search, s: State, a: Action, k: FileKey, name: Name)
    requires Inv(t.cfg, s) && !Failed(s) && Enabled(t.cfg, s, a) && !a.Go?
    ensures Sum(NewEvents(t.cfg, s, a), LogsEntry(t, k, name)) == 0
    ensures Sum(NewEvents(t.cfg, s, a), OpensKey(t.g, k)) == 0
    ensures Spent(t.cfg, s, a, Awaits(t, k, name), WorkerAwaits(t, k, name)) == 0
  {
    NoDropWhileIdle(t.cfg, s, a);
    AwaitsPassedOn(t, k, name);
    ChannelSpends(t.cfg, s, a, Awaits(t, k, name), WorkerAwaits(t, k, name));
    SumZero(NewEvents(t.cfg, s, a), LogsEntry(t, k, name));
    SumZero(NewEvents(t.cfg, s, a), OpensKey(t.g, k));
  }

  /** While the walk has not failed, each reading of a directory accounts for one call for each of its
      entries. */
  lemma StepCalls(t: Search, s: State, a: Action, k: FileKey, i: nat)
    requires Searches(t) && Ready(t, s) && !Failed(s) && Enabled(t.cfg, s, a)
    requires HasEntry(t, k, i) && CallsExact(t, s, k, NameOf(t, k, i))
    ensures CallsExact(t, Apply(t.cfg, s, a), k, NameOf(t, k, i))
  {
    var name := NameOf(t, k, i);
    TotalStep(t.cfg, s, a, Awaits(t, k, name), WorkerAwaits(t, k, name));
    if a.Go? {
      assert SolidWorkers(t)(s.workers[a.i]) && InHand(t, s.log, s.workers[a.i]);
      GoCalls(t, s.workers[a.i], s.log, k, i);
    } else {
      ChannelCalls(t, s, a, k, name);
    }
    LogGrows(t.cfg, s, a);
    SumAppend(s.log, NewEvents(t.cfg, s, a), LogsEntry(t, k, name));
    SumAppend(s.log, NewEvents(t.cfg, s, a), OpensKey(t.g, k));
  }

  lemma {:induction false} RunCalls(t: Search, s: State, acts: seq<Action>, s': State, k: FileKey, i: nat)
    requires Searches(t) && Sound(t, s) && Run(t.cfg, s, acts, s') && !Failed(s')
    requires HasEntry(t, k, i) && CallsExact(t, s, k, NameOf(t, k, i))
    ensures CallsExact(t, s', k, NameOf(t, k, i))
    decreases |acts|
  {
    if acts != [] {
      if Failed(s) {
        RunFailed(t.cfg, s, acts, s');
      }
      SoundIsReady(t, s);
      StepSound(t, s, acts[0]);
      StepCalls(t, s, acts[0], k, i);
      RunCalls(t, Apply(t.cfg, s, acts[0]), acts[1..], s', k, i);
    }
  }

  lemma {:induction false} RunFailed(cfg: Config, s: State, acts: seq<Action>, s': State)
    requires Run(cfg, s, acts, s') && Failed(s)
    ensures Failed(s')
    decreases |acts|
  {
    if acts != [] {
      FailedStays(cfg, s, acts[0]);
      RunFailed(cfg, Apply(cfg, s, acts[0]), acts[1..], s');
    }
  }

  lemma InitCalls(t: Search, k: FileKey, name: Name)
    requires Searches(t)
    ensures CallsExact(t, Init(t.cfg), k, name)
  {
    InitRoot(t);
    InitTotal(t.cfg, Init(t.cfg).todo[0], Awaits(t, k, name), WorkerAwaits(t, k, name));
  }

  // ----- the theorem

  lemma CallsAreReadings(t: Search, acts: seq<Action>, s: State, k: FileKey, i: nat)
    requires Searches(t) && Run(t.cfg, Init(t.cfg), acts, s) && s.coord == Returned(Nil) && HasEntry(t, k, i)
    ensures Sum(s.log, LogsEntry(t, k, NameOf(t, k, i))) == Sum(s.log, OpensKey(t.g, k))
  {
    CallsStayExact(t, acts, s, k, i);
    NothingAwaited(t, acts, s, k, NameOf(t, k, i));
  }

  lemma CallsStayExact(t: Search, acts: seq<Action>, s: State, k: FileKey, i: nat)
    requires Searches(t) && Run(t.cfg, Init(t.cfg), acts, s) && !Failed(s) && HasEntry(t, k, i)
    ensures CallsExact(t, s, k, NameOf(t, k, i))
  {
    InitSound(t);
    InitCalls(t, k, NameOf(t, k, i));
    RunCalls(t, Init(t.cfg), acts, s, k, i);
  }

  lemma NothingAwaited(t: Search, acts: seq<Action>, s: State, k: FileKey, name: Name)
    requires t.cfg.numWorkers >= 1 && Run(t.cfg, Init(t.cfg), acts, s) && s.coord == Returned(Nil)
    ensures Total(s, Awaits(t, k, name), WorkerAwaits(t, k, name)) == 0
  {
    InitInv(t.cfg);
    RunInv(t.cfg, Init(t.cfg), acts, s);
    SumZero(s.workers, WorkerAwaits(t, k, name));
  }

  /** If every reachable directory can be read, the callback is called, without an error, exactly once for
      each entry of each reachable directory, however many paths lead to it... */
  lemma EachEntryCalledOnce(t: Search, acts: seq<Action>, s: State, k: FileKey, i: nat)
    requires Searches(t) && Run(t.cfg, Init(t.cfg), acts, s) && s.coord.Returned?
    requires forall d :: Reachable(t, d) ==> !Broken(t.g, d)
    requires HasEntry(t, k, i)
    ensures Sum(s.log, LogsEntry(t, k, NameOf(t, k, i))) == if Reachable(t, k) then 1 else 0
  {
    EachReachableDirectoryReadOnce(t, acts, s, k);
    CallsAreReadings(t, acts, s, k, i);
  }

  /** ... and once for the root. */
  lemma RootCalledOnce(t: Search, acts: seq<Action>, s: State)
    requires Searches(t) && Run(t.cfg, Init(t.cfg), acts, s) && s.coord.Returned?
    requires forall d :: Reachable(t, d) ==> !Broken(t.g, d)
    ensures Sum(s.log, O.IsCallFor(t.cfg.root)) == 1
  {
    var k := Resolve(t.g, t.cfg.root).value;
    assert Names(t.g, t.cfg.root, k) && Reachable(t, k);
    EachReachableDirectoryReadOnce(t, acts, s, k);
    var j := SumWitness(s.log, OpensKey(t.g, k));
    RootCalled(t, acts, s, s.log[j].dir);
    W.GraphUniquelyNamed(t.g);
    O.CalledOnce(t.cfg, acts, s, t.cfg.root);
  }

  lemma RootCalled(t: Search, acts: seq<Action>, s: State, p: Path)
    requires Run(t.cfg, Init(t.cfg), acts, s) && Opened(p) in s.log
    ensures Sum(s.log, O.IsCallFor(t.cfg.root)) >= 1
  {
    C.InitGood(t.cfg);
    C.RunGood(t.cfg, Init(t.cfg), acts, s);
    Paths.BelowRoot(t.cfg, acts, s, p);
    C.OpenedAbove(t.cfg, s.log, t.cfg.root, p);
    var i := C.PermittingCall(t.cfg, s.log, t.cfg.root);
    SumAtLeast(s.log, i, O.IsCallFor(t.cfg.root));
  }

  // ----- what IgnoreDuplicateDirs passes on

  ghost function Calls(log: seq<Event>): seq<Call>
    decreases |log|
  {
    if log == [] then []
    else
      var e := log[|log| - 1];
      Calls(log[..|log| - 1]) + if e.Called? then [e.call] else []
  }

  /** Every call is passed on, in order. */
  lemma {:induction false} AllPassedOn(t: Search, log: seq<Event>)
    requires Wraps(t) && t.kind.Dirs?
    ensures Memory(t, log).inner == Calls(log)
    decreases |log|
  {
    if log != [] {
      var front, e := log[..|log| - 1], log[|log| - 1];
      assert log == front + [e];
      AllPassedOn(t, front);
      if e.Called? {
        CallMemory(t, front, e.call);
      } else {
        OtherEventsClaimNothing(t, front, e);
      }
    }
  }

  lemma {:induction false} CallsSum(log: seq<Event>, g: Call -> nat, h: Event -> nat)
    requires forall e: Event :: h(e) == if e.Called? then g(e.call) else 0
    ensures Sum(Calls(log), g) == Sum(log, h)
    decreases |log|
  {
    if log != [] {
      var front, e := log[..|log| - 1], log[|log| - 1];
      assert log == front + [e];
      CallsSum(front, g, h);
      SumLast(front, e, h);
      if e.Called? {
        SumLast(Calls(front), e.call, g);
      } else {
        assert Calls(front) + [] == Calls(front);
      }
    }
  }

  /** IgnoreDuplicateDirs calls the wrapped callback exactly once for each entry of each reachable
      directory, whatever its type and whether it is new or not. */
  lemma InnerCalledForEachEntry(t: Search, acts: seq<Action>, s: State, k: FileKey, i: nat)
    requires Searches(t) && t.kind.Dirs? && Run(t.cfg, Init(t.cfg), acts, s) && s.coord.Returned?
    requires forall d :: Reachable(t, d) ==> !Broken(t.g, d)
    requires HasEntry(t, k, i)
    ensures Sum(Memory(t, s.log).inner, CallsEntry(t, k, NameOf(t, k, i))) == if Reachable(t, k) then 1 else 0
  {
    AllPassedOn(t, s.log);
    CallsSum(s.log, CallsEntry(t, k, NameOf(t, k, i)), LogsEntry(t, k, NameOf(t, k, i)));
    EachEntryCalledOnce(t, acts, s, k, i);
  }

  // ----- nothing else

  /** An error that is reported is one of reading a directory. */
  ghost predicate OnlyReadErrors(t: Search, log: seq<Event>) {
    forall c :: Called(c) in log && c.err != Nil ==> NamesDir(t.g, c.path) && List(t.g, c.path).err == c.err
  }

  lemma OnlyReportsHaveErrors(cfg: Config, w: Worker, log: seq<Event>)
    requires Active(w)
    ensures forall c :: Called(c) in Advance(cfg, w, log).events && c.err != Nil ==> c == ItemCall(w.it, w.err)
    ensures (exists c :: Called(c) in Advance(cfg, w, log).events && c.err != Nil) ==> w.Reporting?
  {
  }

  lemma StepReadErrors(t: Search, s: State, a: Action)
    requires Searches(t) && Ready(t, s) && Enabled(t.cfg, s, a) && OnlyReadErrors(t, s.log)
    ensures OnlyReadErrors(t, Apply(t.cfg, s, a).log)
  {
    LogGrows(t.cfg, s, a);
    if a.Go? {
      assert SolidWorkers(t)(s.workers[a.i]);
      OnlyReportsHaveErrors(t.cfg, s.workers[a.i], s.log);
    }
  }

  lemma {:induction false} RunReadErrors(t: Search, s: State, acts: seq<Action>, s': State)
    requires Searches(t) && Sound(t, s) && Run(t.cfg, s, acts, s') && OnlyReadErrors(t, s.log)
    ensures OnlyReadErrors(t, s'.log)
    decreases |acts|
  {
    if acts != [] {
      SoundIsReady(t, s);
      StepSound(t, s, acts[0]);
      StepReadErrors(t, s, acts[0]);
      RunReadErrors(t, Apply(t.cfg, s, acts[0]), acts[1..], s');
    }
  }

  lemma NoErrorReported(t: Search, acts: seq<Action>, s: State, c: Call)
    requires Searches(t) && Run(t.cfg, Init(t.cfg), acts, s) && Called(c) in s.log
    requires forall d :: Reachable(t, d) ==> !Broken(t.g, d)
    ensures c.err == Nil
  {
    InitSound(t);
    RunReadErrors(t, Init(t.cfg), acts, s);
    if c.err != Nil {
      Paths.BelowRoot(t.cfg, acts, s, c.path);
      assert Names(t.g, c.path, Resolve(t.g, c.path).value);
      assert Reachable(t, Resolve(t.g, c.path).value);
    }
  }

  /** If every reachable directory can be read, the callback is called for nothing but the root and the
      entries of reachable directories, and never with an error. */
  lemma CalledForNothingElse(t: Search, acts: seq<Action>, s: State, c: Call)
    requires Searches(t) && Run(t.cfg, Init(t.cfg), acts, s) && Called(c) in s.log
    requires forall d :: Reachable(t, d) ==> !Broken(t.g, d)
    ensures c.err == Nil
    ensures c.path == t.cfg.root
            || exists k, i: nat :: Reachable(t, k) && HasEntry(t, k, i) && IsCallFor(t, k, NameOf(t, k, i), c)
  {
    NoErrorReported(t, acts, s, c);
    if c.path != t.cfg.root {
      Paths.BelowRoot(t.cfg, acts, s, c.path);
      var k, i := EntryFound(t, acts, s, c);
    }
  }

  lemma EntryFound(t: Search, acts: seq<Action>, s: State, c: Call) returns (k: FileKey, i: nat)
    requires Searches(t) && Run(t.cfg, Init(t.cfg), acts, s) && Called(c) in s.log
    requires c.err == Nil && c.path != t.cfg.root && IsPrefix(t.cfg.root, c.path)
    ensures Reachable(t, k) && HasEntry(t, k, i) && IsCallFor(t, k, NameOf(t, k, i), c)
  {
    var j :| 0 <= j < |s.log| && s.log[j] == Called(c);
    C.CalledForFound(t.cfg, acts, s, j);
    assert t.cfg.fs.list(Parent(c.path)) == List(t.g, Parent(c.path));
    k, i := ListedEntry(t, c);
  }

  lemma ListedEntry(t: Search, c: Call) returns (k: FileKey, i: nat)
    requires c.err == Nil && c.path != t.cfg.root && IsPrefix(t.cfg.root, c.path)
    requires DirEnt(c.path[|c.path| - 1], c.typ) in List(t.g, Parent(c.path)).entries
    ensures Reachable(t, k) && HasEntry(t, k, i) && IsCallFor(t, k, NameOf(t, k, i), c)
  {
    var p, e := Parent(c.path), DirEnt(c.path[|c.path| - 1], c.typ);
    i :| 0 <= i < |List(t.g, p).entries| && List(t.g, p).entries[i] == e;
    k := Resolve(t.g, p).value;
    assert p[..|t.cfg.root|] == c.path[..|t.cfg.root|];
    assert IsPrefix(t.cfg.root, p) && Names(t.g, p, k);
  }
}
