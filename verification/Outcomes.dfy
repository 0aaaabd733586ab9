/** Which errors Walk can return. Calls of walk that fail compete: the error of one can come out first
    unless the failing calls above it, which must all still be under way then, keep every worker busy. */
module Outcomes {
  import opened Entries
  import opened Protocol
  import opened Ledger
  import opened Safety
  import opened SequentialWalk
  import opened Refinement

  ghost function Fails(cfg: Config): Item -> nat {
    (it: Item) => if Visit(cfg, it).res != Nil then 1 else 0
  }

  /** A way down from the root: each item is enqueued by the call of walk for the one before. */
  ghost predicate Chain(cfg: Config, root: Item, c: seq<Item>) {
    && c != [] && c[0] == root
    && forall i :: 0 <= i < |c| - 1 ==> c[i + 1] in Kids(cfg)(c[i])
  }

  function Above(c: seq<Item>): seq<Item>
    requires c != []
  {
    c[..|c| - 1]
  }

  function Last(c: seq<Item>): Item
    requires c != []
  {
    c[|c| - 1]
  }

  /** Some call of walk results in `e`, and fewer of those above it fail than there are workers. */
  ghost predicate Returnable(cfg: Config, root: Item, e: Error) {
    exists c :: ReturnableBy(cfg, root, e, c)
  }

  ghost predicate ReturnableBy(cfg: Config, root: Item, e: Error, c: seq<Item>) {
    && Chain(cfg, root, c) && Visit(cfg, Last(c)).res == e
    && Sum(Above(c), Fails(cfg)) < cfg.numWorkers
  }

  // ----- no other error is returned

  /** `it` is reached with at most `n` failing calls above it. */
  ghost predicate Comes(cfg: Config, root: Item, it: Item, n: nat) {
    exists c :: ComesBy(cfg, root, it, n, c)
  }

  ghost predicate ComesBy(cfg: Config, root: Item, it: Item, n: nat, c: seq<Item>) {
    Chain(cfg, root, c) && Last(c) == it && Sum(Above(c), Fails(cfg)) <= n
  }

  ghost function WillFail(cfg: Config): Worker -> nat {
    (w: Worker) => if Busy(w) == 1 && Future(cfg, w).res != Nil then 1 else 0
  }

  /** The worker handles an item with at most `n` failing calls on the way to it, its own included. */
  ghost predicate Handles(cfg: Config, root: Item, w: Worker, n: nat) {
    Busy(w) == 1 ==> exists c :: HandlesBy(cfg, root, w, n, c)
  }

  ghost predicate HandlesBy(cfg: Config, root: Item, w: Worker, n: nat, c: seq<Item>) {
    && Chain(cfg, root, c) && Sum(c, Fails(cfg)) <= n
    && Future(cfg, w).res == Visit(cfg, Last(c)).res
    && forall x :: x in Future(cfg, w).kids ==> x in Kids(cfg)(Last(c))
  }

  ghost function AllCome(cfg: Config, root: Item, n: nat): Item -> bool {
    (it: Item) => Comes(cfg, root, it, n)
  }

  ghost function AllHandle(cfg: Config, root: Item, n: nat): Worker -> bool {
    (w: Worker) => Handles(cfg, root, w, n)
  }

  ghost predicate NoErrorYet(s: State) {
    !Closed(s) && forall e :: e in s.resc ==> e == Nil
  }

  ghost predicate FirstError(q: seq<Error>, i: nat) {
    i < |q| && q[i] != Nil && forall k :: 0 <= k < i ==> q[k] == Nil
  }

  ghost predicate FirstReturnable(cfg: Config, root: Item, q: seq<Error>) {
    forall i: nat :: FirstError(q, i) ==> Returnable(cfg, root, q[i])
  }

  ghost predicate Coming(cfg: Config, root: Item, s: State) {
    var n := Sum(s.workers, WillFail(cfg));
    |s.workers| == cfg.numWorkers && Everywhere(s, AllCome(cfg, root, n), AllHandle(cfg, root, n))
  }

  ghost predicate OutcomeInv(cfg: Config, root: Item, s: State) {
    && (NoErrorYet(s) ==> Coming(cfg, root, s))
    && (!Closed(s) ==> FirstReturnable(cfg, root, s.resc))
    && (Failed(s) ==> Returnable(cfg, root, s.coord.err))
  }

  lemma AboveAndLast(cfg: Config, c: seq<Item>)
    requires c != []
    ensures Sum(c, Fails(cfg)) == Sum(Above(c), Fails(cfg)) + Fails(cfg)(Last(c))
  {
    assert c == Above(c) + [Last(c)];
    SumLast(Above(c), Last(c), Fails(cfg));
  }

  lemma OneFurther(cfg: Config, root: Item, c: seq<Item>, x: Item)
    requires Chain(cfg, root, c) && x in Kids(cfg)(Last(c))
    ensures Chain(cfg, root, c + [x]) && Last(c + [x]) == x && Above(c + [x]) == c
  {
  }

  lemma {:induction false} AtMostAll(ws: seq<Worker>, cfg: Config)
    ensures Sum(ws, WillFail(cfg)) <= |ws|
  {
    if ws != [] {
      AtMostAll(ws[1..], cfg);
    }
  }

  lemma MoreMayFail(cfg: Config, root: Item, s: State, n: nat, n': nat)
    requires n <= n' && Everywhere(s, AllCome(cfg, root, n), AllHandle(cfg, root, n))
    ensures Everywhere(s, AllCome(cfg, root, n'), AllHandle(cfg, root, n'))
  {
    forall it | AllCome(cfg, root, n)(it)
      ensures AllCome(cfg, root, n')(it)
    {
      var c :| ComesBy(cfg, root, it, n, c);
      assert ComesBy(cfg, root, it, n', c);
    }
    forall w | AllHandle(cfg, root, n)(w)
      ensures AllHandle(cfg, root, n')(w)
    {
      if Busy(w) == 1 {
        var c :| HandlesBy(cfg, root, w, n, c);
        assert HandlesBy(cfg, root, w, n', c);
      }
    }
  }

  lemma StillHandles(cfg: Config, root: Item, w: Worker, w': Worker, n: nat)
    requires Handles(cfg, root, w, n) && Busy(w) == Busy(w') == 1
    requires Future(cfg, w').res == Future(cfg, w).res && Future(cfg, w').kids == Future(cfg, w).kids
    ensures Handles(cfg, root, w', n)
  {
    var c :| HandlesBy(cfg, root, w, n, c);
    assert HandlesBy(cfg, root, w', n, c);
  }

  lemma GoHandles(cfg: Config, root: Item, w: Worker, log: seq<Event>, n: nat)
    requires Pure(cfg) && Active(w) && Handles(cfg, root, w, n)
    ensures var next := Advance(cfg, w, log).next;
            Handles(cfg, root, next, n) && WillFail(cfg)(next) == WillFail(cfg)(w)
  {
    AdvanceKeepsFuture(cfg, w, log);
    StaysBusy(cfg, w, log);
    StillHandles(cfg, root, w, Advance(cfg, w, log).next, n);
  }

  /** What is enqueued comes below the item that is handled. */
  lemma PushedComes(cfg: Config, root: Item, w: Worker, n: nat)
    requires w.Enqueueing? && Handles(cfg, root, w, n)
    ensures var w' := Reading(w.it, w.rest, w.skipFiles);
            && Comes(cfg, root, w.pending, n) && Handles(cfg, root, w', n)
            && WillFail(cfg)(w') == WillFail(cfg)(w)
  {
    var w' := Reading(w.it, w.rest, w.skipFiles);
    var c :| HandlesBy(cfg, root, w, n, c);
    QueuedFuture(cfg, w);
    assert w.pending in Future(cfg, w).kids;
    OneFurther(cfg, root, c, w.pending);
    assert ComesBy(cfg, root, w.pending, n, c + [w.pending]);
    assert HandlesBy(cfg, root, w', n, c);
  }

  // ----- the steps of the system

  lemma StepComing(cfg: Config, root: Item, s: State, a: Action)
    requires Pure(cfg) && Coming(cfg, root, s) && Enabled(cfg, s, a) && !a.Quit? && !a.Drop?
    requires a.Deliver? ==> s.workers[a.i].res == Nil
    ensures Coming(cfg, root, Apply(cfg, s, a))
  {
    var n := Sum(s.workers, WillFail(cfg));
    if a.Take? {
      TakeComing(cfg, root, s, a.i);
    } else if IsWorkerAction(a) {
      WorkerComing(cfg, root, s, a, n);
      StillComing(cfg, root, s, a, n);
    } else {
      CoordinatorKeeps(cfg, s, a, AllCome(cfg, root, n), AllHandle(cfg, root, n));
    }
  }

  lemma StillComing(cfg: Config, root: Item, s: State, a: Action, n: nat)
    requires Enabled(cfg, s, a) && IsWorkerAction(a) && |s.workers| == cfg.numWorkers
    requires Everywhere(s, AllCome(cfg, root, n), AllHandle(cfg, root, n))
    requires var w' := Apply(cfg, s, a).workers[a.i];
             AllHandle(cfg, root, n)(w') && Sum(s.workers[a.i := w'], WillFail(cfg)) == n
    requires a.Push? ==> AllCome(cfg, root, n)(s.workers[a.i].pending)
    ensures Coming(cfg, root, Apply(cfg, s, a))
  {
    OneWorkerChanges(cfg, s, a);
    WorkerKeeps(cfg, s, a, AllCome(cfg, root, n), AllHandle(cfg, root, n));
  }

  lemma OneWorkerChanges(cfg: Config, s: State, a: Action)
    requires Enabled(cfg, s, a) && IsWorkerAction(a)
    ensures Apply(cfg, s, a).workers == s.workers[a.i := Apply(cfg, s, a).workers[a.i]]
  {
  }

  lemma WorkerComing(cfg: Config, root: Item, s: State, a: Action, n: nat)
    requires Pure(cfg) && Enabled(cfg, s, a) && (a.Go? || a.Push? || a.Deliver?)
    requires AllHandle(cfg, root, n)(s.workers[a.i]) && (a.Deliver? ==> s.workers[a.i].res == Nil)
    ensures var w' := Apply(cfg, s, a).workers[a.i];
            && AllHandle(cfg, root, n)(w')
            && Sum(s.workers[a.i := w'], WillFail(cfg)) == Sum(s.workers, WillFail(cfg))
            && (a.Push? ==> AllCome(cfg, root, n)(s.workers[a.i].pending))
  {
    SumUpdate(s.workers, a.i, Apply(cfg, s, a).workers[a.i], WillFail(cfg));
    match a {
      case Go(i) => GoHandles(cfg, root, s.workers[i], s.log, n);
      case Push(i) => PushedComes(cfg, root, s.workers[i], n);
      case _ =>
    }
  }

  /** The worker that takes the item at the end of a chain fails if that does. */
  lemma TakenMayFail(cfg: Config, s: State, i: nat, c: seq<Item>)
    requires Enabled(cfg, s, Take(i)) && c != [] && Last(c) == s.workc[0]
    ensures Sum(s.workers[i := Entering(s.workc[0])], WillFail(cfg)) + Sum(Above(c), Fails(cfg))
         == Sum(s.workers, WillFail(cfg)) + Sum(c, Fails(cfg))
  {
    SumUpdate(s.workers, i, Entering(s.workc[0]), WillFail(cfg));
    AboveAndLast(cfg, c);
  }

  lemma HandlesLast(cfg: Config, root: Item, c: seq<Item>, n: nat)
    requires Chain(cfg, root, c) && Sum(c, Fails(cfg)) <= n
    ensures AllHandle(cfg, root, n)(Entering(Last(c)))
  {
    assert HandlesBy(cfg, root, Entering(Last(c)), n, c);
  }

  lemma LessAbove(cfg: Config, c: seq<Item>)
    requires c != []
    ensures Sum(Above(c), Fails(cfg)) <= Sum(c, Fails(cfg))
  {
    AboveAndLast(cfg, c);
  }

  /** ... and handles it with its own failure counted. */
  lemma OneMoreHandles(cfg: Config, root: Item, s: State, i: nat, c: seq<Item>)
    requires Enabled(cfg, s, Take(i)) && ComesBy(cfg, root, s.workc[0], Sum(s.workers, WillFail(cfg)), c)
    ensures var n' := Sum(s.workers[i := Entering(s.workc[0])], WillFail(cfg));
            Sum(s.workers, WillFail(cfg)) <= n' && AllHandle(cfg, root, n')(Entering(s.workc[0]))
  {
    TakenMayFail(cfg, s, i, c);
    LessAbove(cfg, c);
    HandlesLast(cfg, root, c, Sum(s.workers[i := Entering(s.workc[0])], WillFail(cfg)));
  }

  lemma TakeComing(cfg: Config, root: Item, s: State, i: nat)
    requires Coming(cfg, root, s) && Enabled(cfg, s, Take(i))
    ensures Coming(cfg, root, Apply(cfg, s, Take(i)))
  {
    var n := Sum(s.workers, WillFail(cfg));
    var n' := Sum(s.workers[i := Entering(s.workc[0])], WillFail(cfg));
    assert s.workc[0] in s.workc && AllCome(cfg, root, n)(s.workc[0]);
    var c :| ComesBy(cfg, root, s.workc[0], n, c);
    OneMoreHandles(cfg, root, s, i, c);
    MoreMayFail(cfg, root, s, n, n');
    TakenComing(cfg, root, s, i, n');
  }

  lemma TakenComing(cfg: Config, root: Item, s: State, i: nat, n: nat)
    requires Enabled(cfg, s, Take(i)) && |s.workers| == cfg.numWorkers
    requires Everywhere(s, AllCome(cfg, root, n), AllHandle(cfg, root, n))
    requires AllHandle(cfg, root, n)(Entering(s.workc[0]))
    requires Sum(s.workers[i := Entering(s.workc[0])], WillFail(cfg)) == n
    ensures Coming(cfg, root, Apply(cfg, s, Take(i)))
  {
    StillComing(cfg, root, s, Take(i), n);
  }

  /** A failing call that delivers its result before any other has left a worker to each failing call
      above it. */
  lemma DeliveredReturnable(cfg: Config, root: Item, s: State, i: nat)
    requires Coming(cfg, root, s) && i < |s.workers| && s.workers[i].Sending?
    requires s.workers[i].res != Nil
    ensures Returnable(cfg, root, s.workers[i].res)
  {
    var n := Sum(s.workers, WillFail(cfg));
    assert AllHandle(cfg, root, n)(s.workers[i]);
    var c :| HandlesBy(cfg, root, s.workers[i], n, c);
    AtMostAll(s.workers, cfg);
    LeavesWorker(cfg, root, c);
    assert ReturnableBy(cfg, root, s.workers[i].res, c);
  }

  lemma LeavesWorker(cfg: Config, root: Item, c: seq<Item>)
    requires Chain(cfg, root, c) && Sum(c, Fails(cfg)) <= cfg.numWorkers && Visit(cfg, Last(c)).res != Nil
    ensures Sum(Above(c), Fails(cfg)) < cfg.numWorkers
  {
    AboveAndLast(cfg, c);
  }

  lemma DeliveryReturnable(cfg: Config, root: Item, s: State, i: nat)
    requires OutcomeInv(cfg, root, s) && !Closed(s) && Enabled(cfg, s, Deliver(i))
    ensures FirstReturnable(cfg, root, Apply(cfg, s, Deliver(i)).resc)
  {
    var q := Apply(cfg, s, Deliver(i)).resc;
    forall k: nat | FirstError(q, k)
      ensures Returnable(cfg, root, q[k])
    {
      if k < |s.resc| {
        assert forall j :: 0 <= j <= k ==> q[j] == s.resc[j];
        assert FirstError(s.resc, k);
      } else {
        assert forall j :: 0 <= j < k ==> q[j] == s.resc[j];
        DeliveredReturnable(cfg, root, s, i);
      }
    }
  }

  lemma ReceiptReturnable(cfg: Config, root: Item, s: State)
    requires OutcomeInv(cfg, root, s) && Enabled(cfg, s, Receive)
    ensures s.resc[0] == Nil ==> FirstReturnable(cfg, root, s.resc[1..])
    ensures s.resc[0] != Nil ==> Returnable(cfg, root, s.resc[0])
  {
    if s.resc[0] == Nil {
      forall k: nat | FirstError(s.resc[1..], k)
        ensures Returnable(cfg, root, s.resc[1..][k])
      {
        assert forall j :: 0 < j <= k + 1 ==> s.resc[j] == s.resc[1..][j - 1];
        assert FirstError(s.resc, k + 1);
      }
    } else {
      assert FirstError(s.resc, 0);
    }
  }

  /** There is no error yet before a step after which there is none. */
  lemma NoErrorBefore(cfg: Config, s: State, a: Action)
    requires Enabled(cfg, s, a) && NoErrorYet(Apply(cfg, s, a))
    ensures NoErrorYet(s) && !a.Quit? && !a.Drop? && (a.Deliver? ==> s.workers[a.i].res == Nil)
  {
    var s' := Apply(cfg, s, a);
    if a.Deliver? {
      assert s.workers[a.i].res in s'.resc && forall e :: e in s.resc ==> e in s'.resc;
    } else if a.Receive? {
      assert forall e :: e in s.resc ==> e == s.resc[0] || e in s.resc[1..];
    }
  }

  lemma StepOutcome(cfg: Config, root: Item, s: State, a: Action)
    requires Pure(cfg) && OutcomeInv(cfg, root, s) && Enabled(cfg, s, a)
    ensures OutcomeInv(cfg, root, Apply(cfg, s, a))
  {
    if NoErrorYet(Apply(cfg, s, a)) {
      NoErrorBefore(cfg, s, a);
      StepComing(cfg, root, s, a);
    }
    match a {
      case Deliver(i) =>
        if !Closed(s) {
          DeliveryReturnable(cfg, root, s, i);
        }
      case Receive => ReceiptReturnable(cfg, root, s);
      case _ =>
    }
  }

  lemma {:induction false} RunOutcome(cfg: Config, root: Item, s: State, acts: seq<Action>, s': State)
    requires Pure(cfg) && OutcomeInv(cfg, root, s) && Run(cfg, s, acts, s')
    ensures OutcomeInv(cfg, root, s')
    decreases |acts|
  {
    if acts != [] {
      StepOutcome(cfg, root, s, acts[0]);
      RunOutcome(cfg, root, Apply(cfg, s, acts[0]), acts[1..], s');
    }
  }

  lemma RootComes(cfg: Config, root: Item)
    ensures AllCome(cfg, root, 0)(root)
  {
    assert Chain(cfg, root, [root]) && Above([root]) == [];
    assert ComesBy(cfg, root, root, 0, [root]);
  }

  lemma InitOutcome(cfg: Config, root: Item)
    requires Starts(cfg, root)
    ensures OutcomeInv(cfg, root, Init(cfg))
  {
    SumZero(Init(cfg).workers, WillFail(cfg));
    RootComes(cfg, root);
  }
}
