/** Every schedule is finite when the tree of items is. The tree may be the exact one of a
    callback that is a function of its arguments, or one that covers whatever the callback does. */
module Termination {
  import opened Protocol
  import opened Ledger
  import opened Safety
  import opened SequentialWalk
  import opened Refinement

  ghost predicate IsSuffix<T(!new)>(p: seq<T>, q: seq<T>) {
    |p| <= |q| && q[|q| - |p|..] == p
  }

  lemma Suffixes<T(!new)>(q: seq<T>)
    ensures IsSuffix([], q) && IsSuffix(q, q)
  {
  }

  /** `coming(w)` covers, in order, the items worker `w` may still enqueue, given that `kids(it)`
      covers those that come from `it`. */
  ghost predicate Covers(cfg: Config, kids: Item -> seq<Item>, coming: Worker -> seq<Item>) {
    && (forall it :: coming(Entering(it)) == kids(it))
    && (forall it, rest, skipFiles, pending ::
          coming(Enqueueing(it, rest, skipFiles, pending)) == [pending] + coming(Reading(it, rest, skipFiles)))
    && (forall w, log | Active(w) :: IsSuffix(coming(Advance(cfg, w, log).next), coming(w)))
    && (forall res :: coming(Sending(res)) == [])
    && coming(Idle) == [] && coming(Exited) == []
  }

  /** A unit for every step that handling one item may cost. */
  ghost function OwnSteps(cfg: Config): Item -> seq<()> {
    (it: Item) => seq(3 + EntryCost(cfg, it), i => ())
  }

  ghost function TreeSize(cfg: Config, kids: Item -> seq<Item>, k: nat): Item -> nat {
    Size(kids, OwnSteps(cfg), k)
  }

  ghost function StepsToCome(cfg: Config, kids: Item -> seq<Item>, coming: Worker -> seq<Item>, k: nat): Worker -> nat {
    (w: Worker) => LocalSteps(cfg, w) + Sum(coming(w), TreeSize(cfg, kids, k))
  }

  ghost function ComingTooDeep(kids: Item -> seq<Item>, coming: Worker -> seq<Item>, k: nat): Worker -> nat {
    (w: Worker) => Sum(coming(w), TooDeep(kids, k))
  }

  ghost function Measure(cfg: Config, kids: Item -> seq<Item>, coming: Worker -> seq<Item>, k: nat, s: State): int {
    Total(s, TreeSize(cfg, kids, k), StepsToCome(cfg, kids, coming, k))
    + Progress(s)
  }

  ghost predicate Finite(kids: Item -> seq<Item>, coming: Worker -> seq<Item>, k: nat, s: State) {
    Total(s, TooDeep(kids, k), ComingTooDeep(kids, coming, k)) == 0
  }

  lemma SuffixSum(p: seq<Item>, q: seq<Item>, g: Item -> nat)
    requires IsSuffix(p, q)
    ensures Sum(p, g) <= Sum(q, g)
  {
    var n := |q| - |p|;
    assert q == q[..n] + p;
    SumAppend(q[..n], p, g);
  }

  lemma TakeSize(cfg: Config, kids: Item -> seq<Item>, it: Item, k: nat)
    requires Complete(kids, it, k)
    ensures TreeSize(cfg, kids, k)(it) == 3 + EntryCost(cfg, it) + Sum(kids(it), TreeSize(cfg, kids, k))
    ensures Sum(kids(it), TooDeep(kids, k)) == 0
  {
    UnfoldCount(kids, OwnSteps(cfg), it, k, ());
  }

  lemma GoSize(cfg: Config, kids: Item -> seq<Item>, coming: Worker -> seq<Item>, w: Worker, log: seq<Event>, k: nat)
    requires Covers(cfg, kids, coming) && Active(w)
    ensures var next := Advance(cfg, w, log).next;
            && StepsToCome(cfg, kids, coming, k)(next) < StepsToCome(cfg, kids, coming, k)(w)
            && ComingTooDeep(kids, coming, k)(next) <= ComingTooDeep(kids, coming, k)(w)
  {
    var next := Advance(cfg, w, log).next;
    SuffixSum(coming(next), coming(w), TreeSize(cfg, kids, k));
    SuffixSum(coming(next), coming(w), TooDeep(kids, k));
    AdvanceLocal(cfg, w, log);
  }

  lemma PushSize(cfg: Config, kids: Item -> seq<Item>, coming: Worker -> seq<Item>, w: Worker, k: nat)
    requires Covers(cfg, kids, coming) && w.Enqueueing?
    ensures var w' := Reading(w.it, w.rest, w.skipFiles);
            && StepsToCome(cfg, kids, coming, k)(w)
               == StepsToCome(cfg, kids, coming, k)(w') + 1 + TreeSize(cfg, kids, k)(w.pending)
            && ComingTooDeep(kids, coming, k)(w) == ComingTooDeep(kids, coming, k)(w') + TooDeep(kids, k)(w.pending)
  {
    var later := coming(Reading(w.it, w.rest, w.skipFiles));
    SumFirst(w.pending, later, TreeSize(cfg, kids, k));
    SumFirst(w.pending, later, TooDeep(kids, k));
  }

  lemma DoneSize(cfg: Config, kids: Item -> seq<Item>, coming: Worker -> seq<Item>, w: Worker, k: nat)
    requires Covers(cfg, kids, coming) && (w.Idle? || w.Exited? || w.Sending?)
    ensures StepsToCome(cfg, kids, coming, k)(w) == LocalSteps(cfg, w) && ComingTooDeep(kids, coming, k)(w) == 0
  {
  }

  lemma SpendsSteps(cfg: Config, kids: Item -> seq<Item>, coming: Worker -> seq<Item>, k: nat, s: State, a: Action)
    requires Covers(cfg, kids, coming) && Finite(kids, coming, k, s) && Enabled(cfg, s, a)
    ensures var spent := Spent(cfg, s, a, TreeSize(cfg, kids, k), StepsToCome(cfg, kids, coming, k));
            && (IsWorkerAction(a) ==> spent >= 1)
            && (a.Take? ==> spent >= 4)
            && (a.Deliver? ==> spent >= 3)
            && (!IsWorkerAction(a) ==> spent == 0)
    ensures Spent(cfg, s, a, TooDeep(kids, k), ComingTooDeep(kids, coming, k)) >= 0
  {
    match a {
      case Go(i) => GoSize(cfg, kids, coming, s.workers[i], s.log, k);
      case Take(i) => TakeSpendsSteps(cfg, kids, coming, k, s, i);
      case Push(_) => PushSpendsSteps(cfg, kids, coming, k, s, a);
      case Drop(_) => PushSpendsSteps(cfg, kids, coming, k, s, a);
      case Quit(_) => DoneSpendsSteps(cfg, kids, coming, k, s, a);
      case Deliver(_) => DoneSpendsSteps(cfg, kids, coming, k, s, a);
      case _ =>
    }
  }

  lemma TakeSpendsSteps(cfg: Config, kids: Item -> seq<Item>, coming: Worker -> seq<Item>, k: nat, s: State, i: nat)
    requires Covers(cfg, kids, coming) && Finite(kids, coming, k, s) && Enabled(cfg, s, Take(i))
    ensures Spent(cfg, s, Take(i), TreeSize(cfg, kids, k), StepsToCome(cfg, kids, coming, k)) >= 4
    ensures Spent(cfg, s, Take(i), TooDeep(kids, k), ComingTooDeep(kids, coming, k)) >= 0
  {
    SumAtLeast(s.workc, 0, TooDeep(kids, k));
    TakeSize(cfg, kids, s.workc[0], k);
    DoneSize(cfg, kids, coming, Idle, k);
  }

  lemma PushSpendsSteps(cfg: Config, kids: Item -> seq<Item>, coming: Worker -> seq<Item>, k: nat, s: State, a: Action)
    requires Covers(cfg, kids, coming) && Enabled(cfg, s, a) && (a.Push? || a.Drop?)
    ensures Spent(cfg, s, a, TreeSize(cfg, kids, k), StepsToCome(cfg, kids, coming, k)) >= 1
    ensures Spent(cfg, s, a, TooDeep(kids, k), ComingTooDeep(kids, coming, k)) >= 0
  {
    PushSize(cfg, kids, coming, s.workers[a.i], k);
  }

  lemma DoneSpendsSteps(cfg: Config, kids: Item -> seq<Item>, coming: Worker -> seq<Item>, k: nat, s: State, a: Action)
    requires Covers(cfg, kids, coming) && Enabled(cfg, s, a) && (a.Quit? || a.Deliver?)
    ensures Spent(cfg, s, a, TreeSize(cfg, kids, k), StepsToCome(cfg, kids, coming, k)) >= if a.Deliver? then 3 else 1
    ensures Spent(cfg, s, a, TooDeep(kids, k), ComingTooDeep(kids, coming, k)) >= 0
  {
    DoneSize(cfg, kids, coming, s.workers[a.i], k);
    DoneSize(cfg, kids, coming, Idle, k);
    DoneSize(cfg, kids, coming, Exited, k);
  }

  lemma StepDescends(cfg: Config, kids: Item -> seq<Item>, coming: Worker -> seq<Item>, k: nat, s: State, a: Action)
    requires Covers(cfg, kids, coming) && Finite(kids, coming, k, s) && Enabled(cfg, s, a)
    ensures Finite(kids, coming, k, Apply(cfg, s, a))
    ensures Measure(cfg, kids, coming, k, Apply(cfg, s, a)) < Measure(cfg, kids, coming, k, s)
  {
    TotalStep(cfg, s, a, TreeSize(cfg, kids, k), StepsToCome(cfg, kids, coming, k));
    TotalStep(cfg, s, a, TooDeep(kids, k), ComingTooDeep(kids, coming, k));
    SpendsSteps(cfg, kids, coming, k, s, a);
    CountsDescend(cfg, s, a);
  }

  lemma {:induction false} QueueAtLeast(cfg: Config, kids: Item -> seq<Item>, k: nat, q: seq<Item>)
    requires Sum(q, TooDeep(kids, k)) == 0
    ensures Sum(q, TreeSize(cfg, kids, k)) >= 10 * |q|
  {
    if q == [] {
    } else {
      TakeSize(cfg, kids, q[0], k);
      QueueAtLeast(cfg, kids, k, q[1..]);
    }
  }

  lemma MeasureNonNegative(cfg: Config, kids: Item -> seq<Item>, coming: Worker -> seq<Item>, k: nat, s: State)
    requires Finite(kids, coming, k, s)
    ensures Measure(cfg, kids, coming, k, s) >= 0
  {
    QueueAtLeast(cfg, kids, k, s.todo);
    QueueAtLeast(cfg, kids, k, s.workc);
    QueueAtLeast(cfg, kids, k, s.enqueuec);
  }

  lemma {:induction false} RunDescends(cfg: Config, kids: Item -> seq<Item>, coming: Worker -> seq<Item>, k: nat,
                                       s: State, acts: seq<Action>, t: State)
    requires Covers(cfg, kids, coming) && Finite(kids, coming, k, s) && Run(cfg, s, acts, t)
    ensures |acts| <= Measure(cfg, kids, coming, k, s)
    decreases |acts|
  {
    if acts == [] {
      MeasureNonNegative(cfg, kids, coming, k, s);
    } else {
      StepDescends(cfg, kids, coming, k, s, acts[0]);
      RunDescends(cfg, kids, coming, k, Apply(cfg, s, acts[0]), acts[1..], t);
    }
  }

  /** Steps that suffice for the whole walk. */
  ghost function StepBound(cfg: Config, kids: Item -> seq<Item>, root: Item, k: nat): nat {
    |Gather(kids, OwnSteps(cfg), root, k)| + cfg.numWorkers
  }

  lemma RunIsBounded(cfg: Config, kids: Item -> seq<Item>, coming: Worker -> seq<Item>, root: Item, k: nat,
                     acts: seq<Action>, s: State)
    requires Starts(cfg, root) && Covers(cfg, kids, coming) && Complete(kids, root, k)
    requires Run(cfg, Init(cfg), acts, s)
    ensures |acts| <= StepBound(cfg, kids, root, k)
  {
    InitMeasure(cfg, kids, coming, root, k);
    RunDescends(cfg, kids, coming, k, Init(cfg), acts, s);
  }

  lemma InitMeasure(cfg: Config, kids: Item -> seq<Item>, coming: Worker -> seq<Item>, root: Item, k: nat)
    requires Starts(cfg, root) && Covers(cfg, kids, coming) && Complete(kids, root, k)
    ensures Finite(kids, coming, k, Init(cfg))
    ensures Measure(cfg, kids, coming, k, Init(cfg)) == StepBound(cfg, kids, root, k)
  {
    InitTotal(cfg, root, TreeSize(cfg, kids, k), StepsToCome(cfg, kids, coming, k));
    IdleSteps(cfg, kids, coming, k, Init(cfg).workers);
    InitTotal(cfg, root, TooDeep(kids, k), ComingTooDeep(kids, coming, k));
  }

  lemma {:induction false} IdleSteps(cfg: Config, kids: Item -> seq<Item>, coming: Worker -> seq<Item>, k: nat,
                                     ws: seq<Worker>)
    requires Covers(cfg, kids, coming) && forall i :: 0 <= i < |ws| ==> ws[i] == Idle
    ensures Sum(ws, StepsToCome(cfg, kids, coming, k)) == |ws|
  {
    if ws == [] {
    } else {
      IdleSteps(cfg, kids, coming, k, ws[1..]);
    }
  }

  // ----- the exact tree

  ghost function FutureKids(cfg: Config): Worker -> seq<Item> {
    (w: Worker) => Future(cfg, w).kids
  }

  lemma FutureCovers(cfg: Config)
    requires Pure(cfg)
    ensures Covers(cfg, Kids(cfg), FutureKids(cfg))
  {
    forall w, log | Active(w)
      ensures IsSuffix(FutureKids(cfg)(Advance(cfg, w, log).next), FutureKids(cfg)(w))
    {
      AdvanceKeepsFuture(cfg, w, log);
    }
    forall it, rest, skipFiles, pending
      ensures FutureKids(cfg)(Enqueueing(it, rest, skipFiles, pending))
           == [pending] + FutureKids(cfg)(Reading(it, rest, skipFiles))
    {
      QueuedFuture(cfg, Enqueueing(it, rest, skipFiles, pending));
    }
    forall w: Worker | w.Idle? || w.Exited? || w.Sending?
      ensures FutureKids(cfg)(w) == []
    {
      DoneHasNoFuture(cfg, w);
    }
  }

  /** If the sequential walk terminates then so does every parallel one, under any scheduler. */
  lemma TerminatesIfSequentialDoes(cfg: Config, root: Item, k: nat, acts: seq<Action>, s: State)
    requires Starts(cfg, root) && Pure(cfg) && SeqTerminates(cfg, root, k)
    requires Run(cfg, Init(cfg), acts, s)
    ensures |acts| <= StepBound(cfg, Kids(cfg), root, k)
  {
    FutureCovers(cfg);
    RunIsBounded(cfg, Kids(cfg), FutureKids(cfg), root, k, acts, s);
  }
}
