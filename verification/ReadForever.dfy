/** What becomes of a walk if the callback that IgnoreDuplicateDirs wraps asks for links to be traversed
    itself: the adapter passes that answer on even for a directory it has seen, and the walk can go round
    for ever. */
module ReadForever {
  import opened Entries
  import opened Protocol
  import opened Ledger
  import opened Graph
  import opened GraphSearch
  import opened AtMostOnce
  import A = Adapters

  const BASE: FileKey := FileKey(0, 2)
  const LINK: DirEnt := DirEnt([97], Symlink)

  /** A directory that holds one link, to itself. */
  const LOOP: Graph := Graph(BASE, map[BASE := Dir([Link([97], Symlink, Some(BASE))], Nil)])

  /** The callback asks for every link to be traversed. */
  function Inner(): A.Inner {
    (calls: seq<Call>, c: Call) => if c.typ == Symlink then TraverseLink else Nil
  }

  /** A walk with one worker. */
  function Example(): Search {
    var fs := FileSystemOf(LOOP);
    Search(Config(fs, [], false, 0, 1, A.Wrapped(A.Dirs, fs, Inner())), LOOP, A.Dirs, Inner())
  }

  const ROOT: Item := Item([], Directory, 0, false)

  lemma LoopLeadsBack(p: Path)
    requires Names(LOOP, p, BASE)
    ensures Names(LOOP, p + [[97]], BASE) && List(LOOP, p) == Listing([LINK], Nil)
  {
    var links := LOOP.nodes[BASE].links;
    assert Lookup(links, [97]) == Some(BASE);
    assert Parent(p + [[97]]) == p;
    assert DirEnts(links) == [LINK];
  }

  lemma ExampleFiles()
    ensures Wraps(Example()) && Names(LOOP, [], BASE)
    ensures Init(Example().cfg) == Waiting(ROOT, [])
  {
  }

  // ----- once round

  /** One item waits, and the worker is idle. */
  function Waiting(it: Item, log: seq<Event>): State {
    State(Selecting, [it], 0, [], [], [], [Idle], log)
  }

  /** The item is entered if it is picked up now. */
  predicate IsEntered(it: Item, log: seq<Event>) {
    it.callbackDone || (it == ROOT && log == [])
  }

  /** The root is entered the first time... */
  lemma RootAnswer()
    ensures Example().cfg.fn([Picked(ROOT)], ItemCall(ROOT, Nil)) == Nil
  {
    ExampleFiles();
    var t, c := Example(), ItemCall(ROOT, Nil);
    OtherEventsClaimNothing(t, [], Picked(ROOT));
    assert [] + [Picked(ROOT)] == [Picked(ROOT)];
    CallMemory(t, [Picked(ROOT)], c);
    StatFinds(t, c);
  }

  /** ... and the link to it is traversed whatever has been seen. */
  lemma LinkAnswer(it: Item, log: seq<Event>)
    ensures Example().cfg.fn(log, EntryCall(it, LINK)) == TraverseLink
  {
    ExampleFiles();
    CallMemory(Example(), log, EntryCall(it, LINK));
  }

  /** The coordinator has nothing to do, and the one worker is `w`. */
  function Working(w: Worker, log: seq<Event>): State {
    State(Selecting, [], 1, [], [], [], [w], log)
  }

  lemma Works(cfg: Config, acts: seq<Action>, w: Worker, log: seq<Event>, m: Move) returns (acts': seq<Action>)
    requires Active(w) && m == Advance(cfg, w, log)
    requires Run(cfg, Init(cfg), acts, Working(w, log))
    ensures Run(cfg, Init(cfg), acts', Working(m.next, log + m.events)) && |acts'| == |acts| + 1
  {
    var s;
    acts', s := Then(cfg, acts, Working(w, log), Go(0));
    assert [w][0 := m.next] == [m.next];
  }

  /** A worker enqueues `next` and ends its directory without an error. */
  lemma QueuesAndEnds(cfg: Config, acts: seq<Action>, it: Item, next: Item, log: seq<Event>)
    returns (acts': seq<Action>)
    requires cfg.numWorkers == 1 && cfg.fs.list(it.dir).err == Nil
    requires Run(cfg, Init(cfg), acts, Working(Enqueueing(it, [], false, next), log))
    ensures Run(cfg, Init(cfg), acts', State(Selecting, [next], 1, [], [], [], [Sending(Nil)], log))
    ensures |acts'| == |acts| + 3
  {
    var s;
    acts', s := Queue(cfg, acts, Working(Enqueueing(it, [], false, next), log), 0);
    assert s == State(Selecting, [next], 1, [], [], [], [Reading(it, [], false)], log);
    acts', s := Then(cfg, acts', s, Go(0));
    assert log + [] == log && [Reading(it, [], false)][0 := Sending(Nil)] == [Sending(Nil)];
  }

  /** Its result is received, and `next` waits. */
  lemma Settles(cfg: Config, acts: seq<Action>, next: Item, log: seq<Event>) returns (acts': seq<Action>)
    requires cfg.numWorkers == 1
    requires Run(cfg, Init(cfg), acts, State(Selecting, [next], 1, [], [], [], [Sending(Nil)], log))
    ensures Run(cfg, Init(cfg), acts', Waiting(next, log)) && |acts'| == |acts| + 2
  {
    var s0, s := State(Selecting, [next], 1, [], [], [], [Sending(Nil)], log),
                 State(Selecting, [next], 1, [], [], [Nil], [Idle], log);
    var s1, s2;
    Delivers(cfg, s0);
    acts', s1 := Then(cfg, acts, s0, Deliver(0));
    Receives(cfg, s);
    acts', s2 := Then(cfg, acts', s1, Receive);
  }

  lemma Delivers(cfg: Config, s: State)
    requires cfg.numWorkers == 1 && s.resc == [] && s.workers == [Sending(Nil)]
    ensures Enabled(cfg, s, Deliver(0)) && Apply(cfg, s, Deliver(0)) == s.(resc := [Nil], workers := [Idle])
  {
    assert s.workers[0 := Idle] == [Idle] && [] + [Nil] == [Nil];
  }

  lemma Receives(cfg: Config, s: State)
    requires s.coord.Selecting? && s.resc == [Nil] && s.todo != []
    ensures Enabled(cfg, s, Receive) && Apply(cfg, s, Receive) == s.(resc := [], out := s.out - 1)
  {
    assert s.resc[1..] == [];
  }

  /** The directory is opened... */
  lemma Entered(it: Item, log: seq<Event>)
    requires IsEntered(it, log) && Names(LOOP, it.dir, BASE)
    ensures var log' := log + [Picked(it)];
            var m := Advance(Example().cfg, Entering(it), log');
            && m.next == Reading(it, [LINK], false)
            && Sum(log' + m.events, OpensKey(LOOP, BASE)) == Sum(log, OpensKey(LOOP, BASE)) + 1
  {
    LoopLeadsBack(it.dir);
    OneOpening(log, it);
    if !it.callbackDone {
      RootAnswer();
      assert log + [Picked(it)] == [Picked(ROOT)];
    }
  }

  lemma OneOpening(log: seq<Event>, it: Item)
    requires Names(LOOP, it.dir, BASE)
    ensures var log' := log + [Picked(it)];
            var n := Sum(log, OpensKey(LOOP, BASE));
            && Sum(log' + [Opened(it.dir)], OpensKey(LOOP, BASE)) == n + 1
            && Sum(log' + ([Called(ItemCall(it, Nil))] + [Opened(it.dir)]), OpensKey(LOOP, BASE)) == n + 1
  {
    var log' := log + [Picked(it)];
    SumLast(log, Picked(it), OpensKey(LOOP, BASE));
    SumLast(log', Opened(it.dir), OpensKey(LOOP, BASE));
    SumAppend(log', [Called(ItemCall(it, Nil))] + [Opened(it.dir)], OpensKey(LOOP, BASE));
    SumOfTwo(Called(ItemCall(it, Nil)), Opened(it.dir), OpensKey(LOOP, BASE));
  }

  /** ... and its link is enqueued. */
  lemma LinkEnqueued(it: Item, log: seq<Event>)
    ensures var m := Advance(Example().cfg, Reading(it, [LINK], false), log);
            && m.next == Enqueueing(it, [], false, ChildItem(it, LINK))
            && Sum(log + m.events, OpensKey(LOOP, BASE)) == Sum(log, OpensKey(LOOP, BASE))
  {
    LinkAnswer(it, log);
    SumLast(log, Called(EntryCall(it, LINK)), OpensKey(LOOP, BASE));
  }

  lemma Round(acts: seq<Action>, it: Item, log: seq<Event>) returns (acts': seq<Action>, log': seq<Event>)
    requires Run(Example().cfg, Init(Example().cfg), acts, Waiting(it, log))
    requires IsEntered(it, log) && Names(LOOP, it.dir, BASE)
    ensures Run(Example().cfg, Init(Example().cfg), acts', Waiting(ChildItem(it, LINK), log')) && |acts'| == |acts| + 9
    ensures Sum(log', OpensKey(LOOP, BASE)) == Sum(log, OpensKey(LOOP, BASE)) + 1
  {
    var cfg := Example().cfg;
    LoopLeadsBack(it.dir);
    Entered(it, log);
    var s;
    acts', s := TakeFirst(cfg, acts, Waiting(it, log), it, 0);
    log' := log + [Picked(it)];
    assert s == Working(Entering(it), log');
    var m := Advance(cfg, Entering(it), log');
    acts' := Works(cfg, acts', Entering(it), log', m);
    log' := log' + m.events;
    LinkEnqueued(it, log');
    m := Advance(cfg, Reading(it, [LINK], false), log');
    acts' := Works(cfg, acts', Reading(it, [LINK], false), log', m);
    log' := log' + m.events;
    acts' := QueuesAndEnds(cfg, acts', it, ChildItem(it, LINK), log');
    acts' := Settles(cfg, acts', ChildItem(it, LINK), log');
  }

  // ----- any number of times

  lemma {:induction false} Rounds(n: nat) returns (acts: seq<Action>, it: Item, log: seq<Event>)
    ensures Run(Example().cfg, Init(Example().cfg), acts, Waiting(it, log)) && |acts| == 9 * n
    ensures IsEntered(it, log) && Names(LOOP, it.dir, BASE) && Sum(log, OpensKey(LOOP, BASE)) == n
  {
    if n == 0 {
      ExampleFiles();
      acts, it, log := [], ROOT, [];
    } else {
      acts, it, log := Rounds(n - 1);
      LoopLeadsBack(it.dir);
      acts, log := Round(acts, it, log);
      it := ChildItem(it, LINK);
    }
  }

  /** The one directory is opened as often as you like: the walk need not end. */
  lemma ReadAnyNumberOfTimes(n: nat) returns (acts: seq<Action>, s: State)
    ensures Wraps(Example()) && Run(Example().cfg, Init(Example().cfg), acts, s)
    ensures |acts| >= n && Sum(s.log, OpensKey(LOOP, BASE)) == n
  {
    ExampleFiles();
    var it, log;
    acts, it, log := Rounds(n);
    s := Waiting(it, log);
  }
}
