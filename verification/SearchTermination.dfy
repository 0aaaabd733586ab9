/** How long a walk with an adapter takes, whatever the inner callback answers: each directory is paid for
    once, each reading that the inner callback asks for is paid for, and each entry costs a bounded number
    of steps. */
module SearchTermination {
  import opened Entries
  import opened Protocol
  import opened Ledger
  import opened Graph
  import opened GraphSearch

  function LinkCount(g: Graph, k: FileKey): nat {
    if IsDir(g, k) then |g.nodes[k].links| else 0
  }

  /** The cost of the directories in `ks`: twelve steps for each entry. */
  ghost function Cost(g: Graph, ks: set<FileKey>): nat
    decreases |ks|
  {
    if ks == {} then 0
    else
      var k :| k in ks;
      12 * LinkCount(g, k) + Cost(g, ks - {k})
  }

  lemma {:induction false} CostWithout(g: Graph, ks: set<FileKey>, k: FileKey)
    requires k in ks
    ensures Cost(g, ks) == 12 * LinkCount(g, k) + Cost(g, ks - {k})
    decreases |ks|
  {
    var x :| x in ks && Cost(g, ks) == 12 * LinkCount(g, x) + Cost(g, ks - {x});
    if x == k {
    } else {
      CostWithout(g, ks - {x}, k);
      CostWithout(g, ks - {k}, x);
      assert ks - {x} - {k} == ks - {k} - {x};
    }
  }

  /** The steps an item may cost: a claimed directory is paid for by its item. */
  ghost function ItemSteps(g: Graph): Item -> nat {
    (it: Item) => 10 + if it.callbackDone then 12 * |List(g, it.dir).entries| else 0
  }

  ghost function StepsOf(g: Graph, w: Worker): nat {
    match w
    case Exited => 0
    case Idle => 1
    case Sending(_) => 4
    case Reporting(_, _) => 5
    case Reading(_, rest, _) => 6 + 12 * |rest|
    case Enqueueing(_, rest, _, pending) => 7 + 12 * |rest| + ItemSteps(g)(pending)
    case Entering(it) => ItemSteps(g)(it) - 3
  }

  ghost function WorkerSteps(g: Graph): Worker -> nat {
    (w: Worker) => StepsOf(g, w)
  }

  /** The cost of the directories nobody has claimed yet. */
  ghost function Unclaimed(t: Search, log: seq<Event>): nat {
    Cost(t.g, DirKeys(t.g) - SeenKeys(t, log))
  }

  /** The cost of the readings that the inner callback asked for: twelve steps for each entry. */
  ghost function AskedNow(t: Search): (seq<Event>, Event) -> nat {
    (log: seq<Event>, e: Event) =>
      if e.Called? && NamesDir(t.g, e.call.path) && Asks(t, log, e.call, Resolve(t.g, e.call.path).value)
      then 12 * |List(t.g, e.call.path).entries| else 0
  }

  ghost function AskedCost(t: Search, log: seq<Event>): nat {
    Tally(log, AskedNow(t))
  }

  /** What is still to be paid for, less what was asked for. */
  ghost function Balance(t: Search, log: seq<Event>): int {
    Unclaimed(t, log) - AskedCost(t, log)
  }

  ghost function Measure(t: Search, s: State): int {
    Balance(t, s.log) + Total(s, ItemSteps(t.g), WorkerSteps(t.g))
    + Progress(s)
  }

  /** Putting `k` in the filter releases its cost. */
  lemma Claimed(g: Graph, seen: set<FileKey>, k: FileKey)
    ensures IsDir(g, k) && k !in seen ==>
              Cost(g, DirKeys(g) - seen) == 12 * LinkCount(g, k) + Cost(g, DirKeys(g) - (seen + {k}))
    ensures !IsDir(g, k) || k in seen ==> Cost(g, DirKeys(g) - seen) == Cost(g, DirKeys(g) - (seen + {k}))
  {
    if IsDir(g, k) && k !in seen {
      CostWithout(g, DirKeys(g) - seen, k);
      assert DirKeys(g) - seen - {k} == DirKeys(g) - (seen + {k});
    } else {
      assert DirKeys(g) - seen == DirKeys(g) - (seen + {k});
    }
  }

  /** A call costs nothing, and if its answer has a directory read, that is paid for. */
  lemma CallReleases(t: Search, log: seq<Event>, c: Call)
    requires Wraps(t) && WellTyped(t.g, c.path, c.typ)
    ensures var before, after := Balance(t, log), Balance(t, log + [Called(c)]);
            && after <= before
            && (HasRead(c, t.cfg.fn(log, c)) || (c.typ == Symlink && c.err == Nil && t.cfg.fn(log, c) == Nil) ==>
                  after + 12 * |List(t.g, c.path).entries| <= before)
  {
    CallClaims(t, log, c);
    TallyLast(log, Called(c), AskedNow(t));
    if Resolve(t.g, c.path).Some? {
      Claimed(t.g, SeenKeys(t, log), Resolve(t.g, c.path).value);
    }
  }

  lemma NoCallNoChange(t: Search, log: seq<Event>, e: Event)
    requires !e.Called?
    ensures Balance(t, log + [e]) == Balance(t, log)
  {
    TallyLast(log, e, AskedNow(t));
    OtherEventsClaimNothing(t, log, e);
  }

  ghost predicate Descends(t: Search, w: Worker, m: Move, log: seq<Event>) {
    StepsOf(t.g, m.next) + Balance(t, log + m.events) < StepsOf(t.g, w) + Balance(t, log)
  }

  /** What is left to do in a directory that was opened, or was not because of the depth limit. */
  lemma OpenSteps(t: Search, it: Item)
    requires Wraps(t)
    ensures StepsOf(t.g, Open(t.cfg, it)) <= 6 + 12 * |List(t.g, it.dir).entries|
  {
    assert t.cfg.fs.list(it.dir) == List(t.g, it.dir);
  }

  lemma OpenReleases(t: Search, it: Item, log: seq<Event>)
    ensures Balance(t, log + OpenEvents(t.cfg, it)) == Balance(t, log)
  {
    if DepthLimited(t.cfg, it) {
      assert log + [] == log;
    } else {
      NoCallNoChange(t, log, Opened(it.dir));
    }
  }

  lemma NewReleases(t: Search, it: Item, log: seq<Event>)
    requires Wraps(t) && GoodItem(t.g, it) && !it.callbackDone && t.cfg.fn(log, ItemCall(it, Nil)) == Nil
    ensures Balance(t, log + ([Called(ItemCall(it, Nil))] + OpenEvents(t.cfg, it))) + 12 * |List(t.g, it.dir).entries|
         <= Balance(t, log)
  {
    var c := ItemCall(it, Nil);
    CallReleases(t, log, c);
    OpenReleases(t, it, log + [Called(c)]);
    assert log + [Called(c)] + OpenEvents(t.cfg, it) == log + ([Called(c)] + OpenEvents(t.cfg, it));
  }

  lemma ClaimedDescends(t: Search, it: Item, log: seq<Event>)
    requires Wraps(t) && it.callbackDone
    ensures Descends(t, Entering(it), Move(Open(t.cfg, it), OpenEvents(t.cfg, it)), log)
  {
    OpenSteps(t, it);
    OpenReleases(t, it, log);
  }

  lemma NewDescends(t: Search, it: Item, log: seq<Event>)
    requires Wraps(t) && GoodItem(t.g, it) && !it.callbackDone && t.cfg.fn(log, ItemCall(it, Nil)) == Nil
    ensures Descends(t, Entering(it), Move(Open(t.cfg, it), [Called(ItemCall(it, Nil))] + OpenEvents(t.cfg, it)), log)
  {
    OpenSteps(t, it);
    NewReleases(t, it, log);
  }

  lemma RefusedDescends(t: Search, it: Item, log: seq<Event>, m: Move)
    requires Wraps(t) && GoodItem(t.g, it) && m.next.Sending? && m.events == [Called(ItemCall(it, Nil))]
    ensures Descends(t, Entering(it), m, log)
  {
    CallReleases(t, log, ItemCall(it, Nil));
  }

  lemma EnterDescends(t: Search, it: Item, log: seq<Event>, m: Move)
    requires Wraps(t) && GoodItem(t.g, it) && EnterMove(t.cfg, it, log, m)
    ensures Descends(t, Entering(it), m, log)
  {
    if it.callbackDone {
      ClaimedDescends(t, it, log);
    } else if t.cfg.fn(log, ItemCall(it, Nil)) == Nil {
      NewDescends(t, it, log);
    } else {
      RefusedDescends(t, it, log, m);
    }
  }

  lemma ReadDescends(t: Search, w: Worker, log: seq<Event>, m: Move)
    requires Wraps(t) && w.Reading? && w.rest != [] && GoodWorker(t.g, w) && EntryMove(t.cfg, w, log, m)
    ensures Descends(t, w, m, log)
  {
    assert |w.rest[1..]| == |w.rest| - 1;
    if m.events == [] {
      assert log + [] == log;
    } else {
      FirstEntry(t.g, w.it.dir, w.rest);
      CallReleases(t, log, EntryCall(w.it, w.rest[0]));
    }
  }

  /** The end of a directory, and the report of its error. */
  lemma EndDescends(t: Search, w: Worker, log: seq<Event>, m: Move)
    requires Wraps(t) && GoodWorker(t.g, w) && (w.Reporting? || (w.Reading? && w.rest == []))
    requires EndMove(t.cfg, w, m)
    ensures Descends(t, w, m, log)
  {
    if w.Reporting? {
      CallReleases(t, log, ItemCall(w.it, w.err));
    } else {
      assert log + [] == log;
    }
  }

  lemma GoDescends(t: Search, w: Worker, log: seq<Event>)
    requires Wraps(t) && Active(w) && GoodWorker(t.g, w)
    ensures Descends(t, w, Advance(t.cfg, w, log), log)
  {
    var m := Advance(t.cfg, w, log);
    if w.Entering? {
      EnterMoves(t.cfg, w.it, log);
      EnterDescends(t, w.it, log, m);
    } else if w.Reporting? || w.rest == [] {
      EndMoves(t.cfg, w, log);
      EndDescends(t, w, log, m);
    } else {
      EntryMoves(t.cfg, w, log);
      ReadDescends(t, w, log, m);
    }
  }

  lemma SpendsSteps(t: Search, s: State, a: Action)
    requires Wraps(t) && GoodState(t.g, s) && Enabled(t.cfg, s, a)
    ensures var spent := Spent(t.cfg, s, a, ItemSteps(t.g), WorkerSteps(t.g))
                         + Balance(t, s.log) - Balance(t, s.log + NewEvents(t.cfg, s, a));
            && (IsWorkerAction(a) ==> spent >= 1)
            && (a.Take? ==> spent >= 4)
            && (a.Deliver? ==> spent >= 3)
            && (!IsWorkerAction(a) ==> spent == 0)
  {
    if a.Go? {
      assert GoodWorkers(t.g)(s.workers[a.i]);
      GoDescends(t, s.workers[a.i], s.log);
    } else {
      NothingReleased(t, s, a);
      ChannelDescends(t.cfg, t.g, s, a);
    }
  }

  lemma NothingReleased(t: Search, s: State, a: Action)
    requires Enabled(t.cfg, s, a) && !a.Go?
    ensures Balance(t, s.log + NewEvents(t.cfg, s, a)) == Balance(t, s.log)
  {
    if a.Take? {
      NoCallNoChange(t, s.log, Picked(s.workc[0]));
    } else {
      assert s.log + [] == s.log;
    }
  }

  lemma ChannelDescends(cfg: Config, g: Graph, s: State, a: Action)
    requires Enabled(cfg, s, a) && !a.Go?
    ensures var spent := Spent(cfg, s, a, ItemSteps(g), WorkerSteps(g));
            && (IsWorkerAction(a) ==> spent >= 1)
            && (a.Take? ==> spent >= 4)
            && (a.Deliver? ==> spent >= 3)
            && (!IsWorkerAction(a) ==> spent == 0)
  {
  }

  lemma StepDescends(t: Search, s: State, a: Action)
    requires Wraps(t) && GoodState(t.g, s) && Enabled(t.cfg, s, a)
    ensures Measure(t, Apply(t.cfg, s, a)) < Measure(t, s)
  {
    TotalStep(t.cfg, s, a, ItemSteps(t.g), WorkerSteps(t.g));
    SpendsSteps(t, s, a);
    LogGrows(t.cfg, s, a);
    CountsDescend(t.cfg, s, a);
  }

  lemma {:induction false} QueueAtLeast(g: Graph, q: seq<Item>)
    ensures Sum(q, ItemSteps(g)) >= 10 * |q|
  {
    if q == [] {
    } else {
      QueueAtLeast(g, q[1..]);
    }
  }

  /** Only what was asked for can have been overdrawn. */
  lemma MeasureAtLeast(t: Search, s: State)
    ensures Measure(t, s) + AskedCost(t, s.log) >= 0
  {
    QueueAtLeast(t.g, s.todo);
    QueueAtLeast(t.g, s.workc);
    QueueAtLeast(t.g, s.enqueuec);
  }

  lemma {:induction false} RunDescends(t: Search, s: State, acts: seq<Action>, s': State)
    requires Wraps(t) && GoodState(t.g, s) && Run(t.cfg, s, acts, s')
    ensures |acts| + Measure(t, s') <= Measure(t, s)
    decreases |acts|
  {
    if acts == [] {
    } else {
      StepGood(t, s, acts[0]);
      StepDescends(t, s, acts[0]);
      RunDescends(t, Apply(t.cfg, s, acts[0]), acts[1..], s');
    }
  }

  lemma {:induction false} IdleSteps(g: Graph, ws: seq<Worker>)
    requires forall i :: 0 <= i < |ws| ==> ws[i] == Idle
    ensures Sum(ws, WorkerSteps(g)) == |ws|
  {
    if ws == [] {
    } else {
      IdleSteps(g, ws[1..]);
    }
  }

  /** With either adapter, whatever the inner callback answers and however the links run in cycles, no
      run of any walk is longer than twelve steps for each directory entry, twelve more for each entry of
      a directory each time that the inner callback asks for it to be traversed, one for each worker, and
      ten. Under IgnoreDuplicateFiles it cannot ask. */
  lemma SearchTerminates(t: Search, acts: seq<Action>, s: State)
    requires Wraps(t) && Run(t.cfg, Init(t.cfg), acts, s)
    ensures |acts| <= Cost(t.g, DirKeys(t.g)) + AskedCost(t, s.log) + t.cfg.numWorkers + 10
    ensures t.kind.Files? ==> AskedCost(t, s.log) == 0
  {
    InitGood(t);
    InitMeasure(t);
    RunDescends(t, Init(t.cfg), acts, s);
    MeasureAtLeast(t, s);
    if t.kind.Files? {
      FilesCostNothing(t, s.log);
    }
  }

  lemma {:induction false} FilesCostNothing(t: Search, log: seq<Event>)
    requires t.kind.Files?
    ensures AskedCost(t, log) == 0
    decreases |log|
  {
    if log == [] {
    } else {
      FilesCostNothing(t, log[..|log| - 1]);
    }
  }

  lemma InitMeasure(t: Search)
    ensures Measure(t, Init(t.cfg)) <= Cost(t.g, DirKeys(t.g)) + t.cfg.numWorkers + 10
  {
    var s := Init(t.cfg);
    assert DirKeys(t.g) - SeenKeys(t, []) == DirKeys(t.g);
    IdleSteps(t.g, s.workers);
    if s.todo != [] {
      assert s.todo == [] + [s.todo[0]];
      SumLast([], s.todo[0], ItemSteps(t.g));
    }
  }
}
