/** For a callback that is a function of its arguments, every interleaving of the parallel walk
    does what the sequential walk does. */
module Refinement {
  import opened Entries
  import opened Protocol
  import opened Ledger
  import opened Safety
  import opened SequentialWalk

  /** What a worker will still do with the item it holds, if nobody closes donec. */
  function Future(cfg: Config, w: Worker): Outcome {
    match w
    case Entering(it) => Visit(cfg, it)
    case Reading(it, rest, skipFiles) => ReadEntries(cfg, it, rest, skipFiles)
    case Enqueueing(it, rest, skipFiles, pending) =>
      var o := ReadEntries(cfg, it, rest, skipFiles);
      o.(kids := [pending] + o.kids)
    case Reporting(it, err) =>
      Outcome([Called(ItemCall(it, err))], [], Answer(cfg, ItemCall(it, err)))
    case Sending(res) => Outcome([], [], res)
    case _ => Outcome([], [], Nil)
  }

  /** The step from `w` does exactly the first part of its future. */
  ghost predicate KeepsFuture(cfg: Config, w: Worker, m: Move) {
    && Future(cfg, w).events == m.events + Future(cfg, m.next).events
    && Future(cfg, w).kids == Future(cfg, m.next).kids
    && Future(cfg, w).res == Future(cfg, m.next).res
  }

  lemma EnterKeepsFuture(cfg: Config, it: Item, log: seq<Event>)
    requires Pure(cfg)
    ensures KeepsFuture(cfg, Entering(it), Advance(cfg, Entering(it), log))
  {
    assert cfg.fn(log, ItemCall(it, Nil)) == Answer(cfg, ItemCall(it, Nil));
  }

  lemma EntryKeepsFuture(cfg: Config, w: Worker, log: seq<Event>)
    requires Pure(cfg) && w.Reading?
    ensures KeepsFuture(cfg, w, Advance(cfg, w, log))
  {
    if w.rest != [] {
      var c := EntryCall(w.it, w.rest[0]);
      assert cfg.fn(log, c) == Answer(cfg, c);
    }
  }

  lemma AdvanceKeepsFuture(cfg: Config, w: Worker, log: seq<Event>)
    requires Pure(cfg) && Active(w)
    ensures KeepsFuture(cfg, w, Advance(cfg, w, log))
  {
    match w {
      case Entering(it) => EnterKeepsFuture(cfg, it, log);
      case Reading(_, _, _) => EntryKeepsFuture(cfg, w, log);
      case Reporting(it, err) => assert cfg.fn(log, ItemCall(it, err)) == Answer(cfg, ItemCall(it, err));
    }
  }

  // ----- the ledger of events

  /** Occurrences of `x` in what a worker, and the trees of the items it will enqueue, still owe. */
  ghost function OwedEvents(cfg: Config, k: nat, x: Event): Worker -> nat {
    (w: Worker) => multiset(Future(cfg, w).events)[x] + Sum(Future(cfg, w).kids, Count(Kids(cfg), OwnEvents(cfg), k, x))
  }

  ghost function Owed(cfg: Config, s: State, k: nat, x: Event): nat {
    Total(s, Count(Kids(cfg), OwnEvents(cfg), k, x), OwedEvents(cfg, k, x))
  }

  ghost function WorkerTooDeep(cfg: Config, k: nat): Worker -> nat {
    (w: Worker) => Sum(Future(cfg, w).kids, TooDeep(Kids(cfg), k))
  }

  /** Every item still to come has a tree of depth at most `k`. */
  ghost predicate Bounded(cfg: Config, s: State, k: nat) {
    Total(s, TooDeep(Kids(cfg), k), WorkerTooDeep(cfg, k)) == 0
  }

  lemma TakenComplete(cfg: Config, s: State, k: nat)
    requires Bounded(cfg, s, k) && s.workc != []
    ensures Complete(Kids(cfg), s.workc[0], k)
  {
    SumAtLeast(s.workc, 0, TooDeep(Kids(cfg), k));
  }

  // What single workers spend, step by step.

  lemma GoSpends(cfg: Config, w: Worker, log: seq<Event>, k: nat, x: Event)
    requires Pure(cfg) && Active(w)
    ensures var m := Advance(cfg, w, log);
            OwedEvents(cfg, k, x)(w) == multiset(m.events)[x] + OwedEvents(cfg, k, x)(m.next)
    ensures WorkerTooDeep(cfg, k)(w) == WorkerTooDeep(cfg, k)(Advance(cfg, w, log).next)
  {
    AdvanceKeepsFuture(cfg, w, log);
    var m := Advance(cfg, w, log);
    assert multiset(m.events + Future(cfg, m.next).events)
        == multiset(m.events) + multiset(Future(cfg, m.next).events);
  }

  lemma TakeSpends(cfg: Config, it: Item, k: nat, x: Event)
    requires Complete(Kids(cfg), it, k)
    ensures Count(Kids(cfg), OwnEvents(cfg), k, x)(it)
         == multiset([Picked(it)])[x] + OwedEvents(cfg, k, x)(Entering(it))
    ensures WorkerTooDeep(cfg, k)(Entering(it)) == 0
  {
    UnfoldCount(Kids(cfg), OwnEvents(cfg), it, k, x);
    assert multiset([Picked(it)] + Visit(cfg, it).events) == multiset([Picked(it)]) + multiset(Visit(cfg, it).events);
  }

  lemma PushSpends(cfg: Config, w: Worker, k: nat, x: Event)
    requires w.Enqueueing?
    ensures var w' := Reading(w.it, w.rest, w.skipFiles);
            && OwedEvents(cfg, k, x)(w)
               == OwedEvents(cfg, k, x)(w') + Count(Kids(cfg), OwnEvents(cfg), k, x)(w.pending)
            && WorkerTooDeep(cfg, k)(w) == WorkerTooDeep(cfg, k)(w') + TooDeep(Kids(cfg), k)(w.pending)
  {
    var w' := Reading(w.it, w.rest, w.skipFiles);
    QueuedFuture(cfg, w);
    SumFirst(w.pending, Future(cfg, w').kids, Count(Kids(cfg), OwnEvents(cfg), k, x));
    SumFirst(w.pending, Future(cfg, w').kids, TooDeep(Kids(cfg), k));
  }

  lemma QueuedFuture(cfg: Config, w: Worker)
    requires w.Enqueueing?
    ensures var w' := Reading(w.it, w.rest, w.skipFiles);
            && Future(cfg, w).events == Future(cfg, w').events
            && Future(cfg, w).kids == [w.pending] + Future(cfg, w').kids
            && Future(cfg, w).res == Future(cfg, w').res
  {
  }

  lemma DoneHasNoFuture(cfg: Config, w: Worker)
    requires w.Idle? || w.Exited? || w.Sending?
    ensures Future(cfg, w).events == [] && Future(cfg, w).kids == []
  {
  }

  lemma DoneOwesNothing(cfg: Config, w: Worker, k: nat, x: Event)
    requires w.Idle? || w.Exited? || w.Sending?
    ensures OwedEvents(cfg, k, x)(w) == 0 && WorkerTooDeep(cfg, k)(w) == 0
  {
    DoneHasNoFuture(cfg, w);
  }

  lemma OwedHandedOver(cfg: Config, k: nat, x: Event)
    ensures HandedOver(Count(Kids(cfg), OwnEvents(cfg), k, x), OwedEvents(cfg, k, x))
    ensures HandedOver(TooDeep(Kids(cfg), k), WorkerTooDeep(cfg, k))
  {
    forall w: Worker
      ensures w.Idle? || w.Exited? || w.Sending? ==>
                OwedEvents(cfg, k, x)(w) == 0 && WorkerTooDeep(cfg, k)(w) == 0
    {
      if w.Idle? || w.Exited? || w.Sending? {
        DoneOwesNothing(cfg, w, k, x);
      }
    }
    forall it, rest, skipFiles, pending
      ensures var w, w' := Enqueueing(it, rest, skipFiles, pending), Reading(it, rest, skipFiles);
              && OwedEvents(cfg, k, x)(w) == OwedEvents(cfg, k, x)(w') + Count(Kids(cfg), OwnEvents(cfg), k, x)(pending)
              && WorkerTooDeep(cfg, k)(w) == WorkerTooDeep(cfg, k)(w') + TooDeep(Kids(cfg), k)(pending)
    {
      PushSpends(cfg, Enqueueing(it, rest, skipFiles, pending), k, x);
    }
  }

  /** What a step uses up is what it logs. */
  ghost predicate PaysForEvents(cfg: Config, s: State, a: Action, k: nat, x: Event)
    requires Enabled(cfg, s, a)
  {
    var spent := Spent(cfg, s, a, Count(Kids(cfg), OwnEvents(cfg), k, x), OwedEvents(cfg, k, x));
    && spent >= multiset(NewEvents(cfg, s, a))[x]
    && (!a.Drop? ==> spent == multiset(NewEvents(cfg, s, a))[x])
    && Spent(cfg, s, a, TooDeep(Kids(cfg), k), WorkerTooDeep(cfg, k)) >= 0
  }

  lemma GoPaysForEvents(cfg: Config, s: State, i: nat, k: nat, x: Event)
    requires Pure(cfg) && Enabled(cfg, s, Go(i))
    ensures PaysForEvents(cfg, s, Go(i), k, x)
  {
    GoSpends(cfg, s.workers[i], s.log, k, x);
  }

  lemma TakePaysForEvents(cfg: Config, s: State, i: nat, k: nat, x: Event)
    requires Enabled(cfg, s, Take(i)) && Bounded(cfg, s, k)
    ensures PaysForEvents(cfg, s, Take(i), k, x)
  {
    TakenComplete(cfg, s, k);
    TakeSpends(cfg, s.workc[0], k, x);
    DoneOwesNothing(cfg, Idle, k, x);
  }

  lemma OtherPaysForEvents(cfg: Config, s: State, a: Action, k: nat, x: Event)
    requires Enabled(cfg, s, a) && !a.Go? && !a.Take?
    ensures PaysForEvents(cfg, s, a, k, x)
  {
    OwedHandedOver(cfg, k, x);
    HandOverSpends(cfg, s, a, Count(Kids(cfg), OwnEvents(cfg), k, x), OwedEvents(cfg, k, x));
    HandOverSpends(cfg, s, a, TooDeep(Kids(cfg), k), WorkerTooDeep(cfg, k));
  }

  lemma WorkerSpends(cfg: Config, s: State, a: Action, k: nat, x: Event)
    requires Pure(cfg) && Enabled(cfg, s, a) && Bounded(cfg, s, k)
    ensures PaysForEvents(cfg, s, a, k, x)
  {
    if a.Go? {
      GoPaysForEvents(cfg, s, a.i, k, x);
    } else if a.Take? {
      TakePaysForEvents(cfg, s, a.i, k, x);
    } else {
      OtherPaysForEvents(cfg, s, a, k, x);
    }
  }

  /** The step invariant: what is logged plus what is owed stays the same, but for work that is
      abandoned once Walk is returning an error. */
  lemma StepConserves(cfg: Config, s: State, a: Action, k: nat, x: Event)
    requires cfg.numWorkers >= 1 && Pure(cfg) && Inv(cfg, s) && Enabled(cfg, s, a) && Bounded(cfg, s, k)
    ensures Bounded(cfg, Apply(cfg, s, a), k)
    ensures var s' := Apply(cfg, s, a);
            && multiset(s'.log)[x] + Owed(cfg, s', k, x) <= multiset(s.log)[x] + Owed(cfg, s, k, x)
            && (!Failed(s) ==>
                  multiset(s'.log)[x] + Owed(cfg, s', k, x) == multiset(s.log)[x] + Owed(cfg, s, k, x))
  {
    TotalStep(cfg, s, a, Count(Kids(cfg), OwnEvents(cfg), k, x), OwedEvents(cfg, k, x));
    TotalStep(cfg, s, a, TooDeep(Kids(cfg), k), WorkerTooDeep(cfg, k));
    WorkerSpends(cfg, s, a, k, x);
    LogGrows(cfg, s, a);
  }

  lemma {:induction false} RunConserves(cfg: Config, s: State, acts: seq<Action>, t: State, k: nat, x: Event)
    requires cfg.numWorkers >= 1 && Pure(cfg) && Inv(cfg, s) && Bounded(cfg, s, k) && Run(cfg, s, acts, t)
    ensures multiset(t.log)[x] + Owed(cfg, t, k, x) <= multiset(s.log)[x] + Owed(cfg, s, k, x)
    ensures !Failed(t) ==>
              !Failed(s) && multiset(t.log)[x] + Owed(cfg, t, k, x) == multiset(s.log)[x] + Owed(cfg, s, k, x)
    decreases |acts|
  {
    if acts == [] {
    } else {
      var s' := Apply(cfg, s, acts[0]);
      StepConserves(cfg, s, acts[0], k, x);
      StepInv(cfg, s, acts[0]);
      RunConserves(cfg, s', acts[1..], t, k, x);
      if Failed(s) {
        FailedStays(cfg, s, acts[0]);
      }
    }
  }

  lemma IdleOwesNothing(cfg: Config, ws: seq<Worker>, k: nat, x: Event)
    requires forall i :: 0 <= i < |ws| ==> ws[i].Idle? || ws[i].Exited?
    ensures Sum(ws, OwedEvents(cfg, k, x)) == 0 && Sum(ws, WorkerTooDeep(cfg, k)) == 0
  {
    forall i | 0 <= i < |ws|
      ensures OwedEvents(cfg, k, x)(ws[i]) == 0 && WorkerTooDeep(cfg, k)(ws[i]) == 0
    {
      DoneOwesNothing(cfg, ws[i], k, x);
    }
    SumZero(ws, OwedEvents(cfg, k, x));
    SumZero(ws, WorkerTooDeep(cfg, k));
  }

  /** At the start nothing is logged and exactly the sequential walk of the root is owed. */
  lemma InitOwes(cfg: Config, root: Item, k: nat, x: Event)
    requires Starts(cfg, root)
    requires SeqTerminates(cfg, root, k)
    ensures Bounded(cfg, Init(cfg), k)
    ensures Owed(cfg, Init(cfg), k, x) == multiset(SeqWalk(cfg, root, k))[x]
  {
    DoneOwesNothing(cfg, Idle, k, x);
    InitTotal(cfg, root, Count(Kids(cfg), OwnEvents(cfg), k, x), OwedEvents(cfg, k, x));
    InitTotal(cfg, root, TooDeep(Kids(cfg), k), WorkerTooDeep(cfg, k));
  }

  /** No run, not even one that ends in an error, does anything that the sequential walk would not
      do, or does it more often. */
  lemma NothingExtra(cfg: Config, acts: seq<Action>, s: State, root: Item, k: nat)
    requires Starts(cfg, root) && Pure(cfg) && Run(cfg, Init(cfg), acts, s)
    requires SeqTerminates(cfg, root, k)
    ensures multiset(s.log) <= multiset(SeqWalk(cfg, root, k))
  {
    InitInv(cfg);
    forall x: Event
      ensures multiset(s.log)[x] <= multiset(SeqWalk(cfg, root, k))[x]
    {
      InitOwes(cfg, root, k, x);
      RunConserves(cfg, Init(cfg), acts, s, k, x);
    }
  }

  /** A run in which Walk returns nil does exactly what the sequential walk does. */
  lemma NothingLost(cfg: Config, acts: seq<Action>, s: State, root: Item, k: nat)
    requires Starts(cfg, root) && Pure(cfg) && Run(cfg, Init(cfg), acts, s)
    requires SeqTerminates(cfg, root, k)
    requires Closed(s) && s.coord.err == Nil
    ensures multiset(s.log) == multiset(SeqWalk(cfg, root, k))
  {
    InitInv(cfg);
    RunInv(cfg, Init(cfg), acts, s);
    forall x: Event
      ensures multiset(s.log)[x] == multiset(SeqWalk(cfg, root, k))[x]
    {
      InitOwes(cfg, root, k, x);
      RunConserves(cfg, Init(cfg), acts, s, k, x);
      QuietOwesNothing(cfg, s, k, x);
    }
  }

  lemma QuietOwesNothing(cfg: Config, s: State, k: nat, x: Event)
    requires Quiet(s)
    ensures Owed(cfg, s, k, x) == 0
  {
    IdleOwesNothing(cfg, s.workers, k, x);
  }

  // ----- a nil return shows that the sequential walk terminates

  ghost function IsItem(x: Item): Item -> nat {
    (it: Item) => if it == x then 1 else 0
  }

  ghost function WillEnqueue(cfg: Config, x: Item): Worker -> nat {
    (w: Worker) => multiset(Future(cfg, w).kids)[x]
  }

  /** How often the items picked up so far enqueue `x`. */
  ghost function Enqueued(cfg: Config, x: Item): Event -> nat {
    (e: Event) => if e.Picked? then multiset(Visit(cfg, e.item).kids)[x] else 0
  }

  lemma NothingPicked(cfg: Config, x: Item, evs: seq<Event>)
    requires forall i :: 0 <= i < |evs| ==> !evs[i].Picked?
    ensures Sum(evs, Enqueued(cfg, x)) == 0 && multiset(evs)[Picked(x)] == 0
  {
    SumZero(evs, Enqueued(cfg, x));
  }

  lemma OnePicked(cfg: Config, x: Item, it: Item)
    ensures Sum([Picked(it)], Enqueued(cfg, x)) == multiset(Visit(cfg, it).kids)[x]
    ensures multiset([Picked(it)])[Picked(x)] == IsItem(x)(it)
  {
    assert [] + [Picked(it)] == [Picked(it)];
    SumLast([], Picked(it), Enqueued(cfg, x));
  }

  lemma ItemsHandedOver(cfg: Config, x: Item)
    ensures HandedOver(IsItem(x), WillEnqueue(cfg, x))
  {
    forall w: Worker
      ensures w.Idle? || w.Exited? || w.Sending? ==> WillEnqueue(cfg, x)(w) == 0
    {
      if w.Idle? || w.Exited? || w.Sending? {
        DoneHasNoFuture(cfg, w);
      }
    }
    forall it, rest, skipFiles, pending
      ensures WillEnqueue(cfg, x)(Enqueueing(it, rest, skipFiles, pending))
           == WillEnqueue(cfg, x)(Reading(it, rest, skipFiles)) + IsItem(x)(pending)
    {
      PushEnqueues(cfg, Enqueueing(it, rest, skipFiles, pending), x);
    }
  }

  lemma SpendsItems(cfg: Config, s: State, a: Action, x: Item)
    requires Pure(cfg) && Enabled(cfg, s, a)
    ensures a.Drop? ||
            Spent(cfg, s, a, IsItem(x), WillEnqueue(cfg, x))
            == multiset(NewEvents(cfg, s, a))[Picked(x)] - Sum(NewEvents(cfg, s, a), Enqueued(cfg, x))
  {
    ItemsHandedOver(cfg, x);
    if a.Go? {
      AdvanceKeepsFuture(cfg, s.workers[a.i], s.log);
      AdvanceEvents(cfg, s.workers[a.i], s.log);
      NothingPicked(cfg, x, NewEvents(cfg, s, a));
    } else if a.Take? {
      OnePicked(cfg, x, s.workc[0]);
    } else {
      NothingPicked(cfg, x, []);
      HandOverSpends(cfg, s, a, IsItem(x), WillEnqueue(cfg, x));
    }
  }

  lemma PushEnqueues(cfg: Config, w: Worker, x: Item)
    requires w.Enqueueing?
    ensures WillEnqueue(cfg, x)(w)
         == WillEnqueue(cfg, x)(Reading(w.it, w.rest, w.skipFiles)) + IsItem(x)(w.pending)
  {
  }

  /** Items are neither lost nor invented: `x` is waiting, or was picked up, as often as the root
      and the picked-up items account for. */
  lemma {:induction false} RunKeepsItems(cfg: Config, s: State, acts: seq<Action>, t: State, x: Item)
    requires cfg.numWorkers >= 1 && Pure(cfg) && Inv(cfg, s) && Run(cfg, s, acts, t) && !Failed(t)
    ensures !Failed(s)
    ensures Total(t, IsItem(x), WillEnqueue(cfg, x)) + multiset(t.log)[Picked(x)] - Sum(t.log, Enqueued(cfg, x))
         == Total(s, IsItem(x), WillEnqueue(cfg, x)) + multiset(s.log)[Picked(x)] - Sum(s.log, Enqueued(cfg, x))
    decreases |acts|
  {
    if acts == [] {
    } else {
      var a := acts[0];
      StepInv(cfg, s, a);
      RunKeepsItems(cfg, Apply(cfg, s, a), acts[1..], t, x);
      if Failed(s) {
        FailedStays(cfg, s, a);
      }
      NoDropWhileIdle(cfg, s, a);
      TotalStep(cfg, s, a, IsItem(x), WillEnqueue(cfg, x));
      SpendsItems(cfg, s, a, x);
      LogGrows(cfg, s, a);
      SumAppend(s.log, NewEvents(cfg, s, a), Enqueued(cfg, x));
    }
  }

  /** Every child of a picked-up item has been picked up. */
  ghost predicate PickedClosed(cfg: Config, log: seq<Event>) {
    forall it, i :: Picked(it) in log && 0 <= i < |Visit(cfg, it).kids| ==> Picked(Visit(cfg, it).kids[i]) in log
  }

  lemma NilReturnCountsItems(cfg: Config, acts: seq<Action>, s: State, root: Item, x: Item)
    requires Starts(cfg, root) && Pure(cfg) && Run(cfg, Init(cfg), acts, s)
    requires Closed(s) && s.coord.err == Nil
    ensures multiset(s.log)[Picked(x)] == IsItem(x)(root) + Sum(s.log, Enqueued(cfg, x))
  {
    InitInv(cfg);
    RunInv(cfg, Init(cfg), acts, s);
    RunKeepsItems(cfg, Init(cfg), acts, s, x);
    InitItems(cfg, root, x);
    QuietHoldsNoItems(cfg, s, x);
  }

  lemma QuietHoldsNoItems(cfg: Config, s: State, x: Item)
    requires Quiet(s)
    ensures Total(s, IsItem(x), WillEnqueue(cfg, x)) == 0
  {
    ItemsHandedOver(cfg, x);
    SumZero(s.workers, WillEnqueue(cfg, x));
  }

  lemma InitItems(cfg: Config, root: Item, x: Item)
    requires Starts(cfg, root)
    ensures Total(Init(cfg), IsItem(x), WillEnqueue(cfg, x)) == IsItem(x)(root)
  {
    DoneHasNoFuture(cfg, Idle);
    InitTotal(cfg, root, IsItem(x), WillEnqueue(cfg, x));
  }

  lemma NilReturnPickedAll(cfg: Config, acts: seq<Action>, s: State, root: Item)
    requires Starts(cfg, root) && Pure(cfg) && Run(cfg, Init(cfg), acts, s)
    requires Closed(s) && s.coord.err == Nil
    ensures Picked(root) in s.log && PickedClosed(cfg, s.log)
  {
    NilReturnCountsItems(cfg, acts, s, root, root);
    assert multiset(s.log)[Picked(root)] > 0;
    forall it, i | Picked(it) in s.log && 0 <= i < |Visit(cfg, it).kids|
      ensures Picked(Visit(cfg, it).kids[i]) in s.log
    {
      var x := Visit(cfg, it).kids[i];
      NilReturnCountsItems(cfg, acts, s, root, x);
      PickedKidCounts(cfg, s.log, it, x);
      assert multiset(s.log)[Picked(x)] > 0;
    }
  }

  lemma PickedKidCounts(cfg: Config, log: seq<Event>, it: Item, x: Item)
    requires Picked(it) in log && x in Visit(cfg, it).kids
    ensures Sum(log, Enqueued(cfg, x)) > 0
  {
    var j :| 0 <= j < |log| && log[j] == Picked(it);
    SumAtLeast(log, j, Enqueued(cfg, x));
    assert x in multiset(Visit(cfg, it).kids);
  }

  lemma {:induction false} EntriesBelow(cfg: Config, it: Item, rest: seq<DirEnt>, skipFiles: bool)
    ensures forall x :: x in ReadEntries(cfg, it, rest, skipFiles).kids ==> |x.dir| == |it.dir| + 1
    decreases |rest|
  {
    if rest == [] {
    } else {
      EntriesBelow(cfg, it, rest[1..], skipFiles);
      EntriesBelow(cfg, it, rest[1..], true);
    }
  }

  lemma {:induction false} DeepestPicked(log: seq<Event>) returns (n: nat)
    ensures forall it :: Picked(it) in log ==> |it.dir| <= n
  {
    if log == [] {
      n := 0;
    } else {
      n := DeepestPicked(log[1..]);
      if log[0].Picked? && |log[0].item.dir| > n {
        n := |log[0].item.dir|;
      }
    }
  }

  lemma KidBelow(cfg: Config, it: Item, i: nat)
    requires i < |Visit(cfg, it).kids|
    ensures |Visit(cfg, it).kids[i].dir| == |it.dir| + 1
  {
    EntriesBelow(cfg, it, cfg.fs.list(it.dir).entries, false);
    assert Visit(cfg, it).kids[i] in Visit(cfg, it).kids;
  }

  /** The items in `picked` have paths of at most `n` names, and each child is in it, one name down. */
  ghost predicate ClosedBelow(kids: Item -> seq<Item>, picked: Item -> bool, n: nat) {
    && (forall it :: picked(it) ==> |it.dir| <= n)
    && (forall it, i :: picked(it) && 0 <= i < |kids(it)| ==>
          picked(kids(it)[i]) && |kids(it)[i].dir| == |it.dir| + 1)
  }

  lemma {:induction false} ClosedIsComplete(kids: Item -> seq<Item>, picked: Item -> bool, it: Item, n: nat)
    requires ClosedBelow(kids, picked, n) && picked(it)
    ensures Complete(kids, it, n - |it.dir| + 1)
    decreases n - |it.dir|
  {
    forall i | 0 <= i < |kids(it)|
      ensures Complete(kids, kids(it)[i], n - |it.dir|)
    {
      ClosedIsComplete(kids, picked, kids(it)[i], n);
    }
  }

  lemma PickedComplete(cfg: Config, log: seq<Event>, it: Item, n: nat)
    requires PickedClosed(cfg, log) && forall x :: Picked(x) in log ==> |x.dir| <= n
    requires Picked(it) in log
    ensures SeqTerminates(cfg, it, n - |it.dir| + 1)
  {
    var picked := (x: Item) => Picked(x) in log;
    forall j, i | picked(j) && 0 <= i < |Kids(cfg)(j)|
      ensures picked(Kids(cfg)(j)[i]) && |Kids(cfg)(j)[i].dir| == |j.dir| + 1
    {
      KidBelow(cfg, j, i);
    }
    ClosedIsComplete(Kids(cfg), picked, it, n);
  }

  /** For any file system, any callback that is a function of its arguments, any number of workers
      and any interleaving: if Walk returns nil then the sequential walk terminates, and the two
      did the same things equally often. */
  lemma NilReturnIsSequentialWalk(cfg: Config, acts: seq<Action>, s: State, root: Item) returns (k: nat)
    requires Starts(cfg, root) && Pure(cfg) && Run(cfg, Init(cfg), acts, s)
    requires s.coord == Returned(Nil)
    ensures SeqTerminates(cfg, root, k)
    ensures multiset(s.log) == multiset(SeqWalk(cfg, root, k))
  {
    NilReturnPickedAll(cfg, acts, s, root);
    var n := DeepestPicked(s.log);
    PickedComplete(cfg, s.log, root, n);
    k := n - |root.dir| + 1;
    NothingLost(cfg, acts, s, root, k);
  }
}
