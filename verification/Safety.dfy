/** Properties of every run, whatever the callback answers: the meaning of `out`, quiescence when
    Walk returns nil, deadlock freedom, and bounded shutdown. */
module Safety {
  import opened Entries
  import opened Protocol
  import opened Ledger

  /** A worker between receiving an item and sending its result. */
  function Busy(w: Worker): nat {
    if w.Idle? || w.Exited? then 0 else 1
  }

  lemma StaysBusy(cfg: Config, w: Worker, log: seq<Event>)
    requires Active(w)
    ensures Busy(w) == Busy(Advance(cfg, w, log).next) == 1
  {
  }

  ghost predicate Quiet(s: State) {
    && s.todo == [] && s.workc == [] && s.enqueuec == [] && s.resc == []
    && forall i :: 0 <= i < |s.workers| ==> s.workers[i].Idle? || s.workers[i].Exited?
  }

  ghost predicate Counted(s: State) {
    s.out == |s.workc| + Sum(s.workers, Busy) + |s.resc|
  }

  ghost predicate Inv(cfg: Config, s: State) {
    && |s.workc| <= cfg.numWorkers && |s.enqueuec| <= cfg.numWorkers && |s.resc| <= cfg.numWorkers
    && (!Closed(s) ==> |s.workers| == cfg.numWorkers && Counted(s))
    && (!Closed(s) ==> forall i :: 0 <= i < |s.workers| ==> !s.workers[i].Exited?)
    && (s.coord.Selecting? ==> s.out > 0 || s.todo != [] || s.enqueuec != [])
    && (s.coord.Rechecking? ==> s.out == 0 && s.todo == [])
    && (Closed(s) && !Failed(s) ==> Quiet(s))
    && (s.coord.Returned? ==> forall i :: 0 <= i < |s.workers| ==> s.workers[i].Exited?)
  }

  lemma InitInv(cfg: Config)
    requires cfg.numWorkers >= 1
    ensures Inv(cfg, Init(cfg))
  {
    SumZero(Init(cfg).workers, Busy);
  }

  /** Counting busy workers: nobody is busy when the coordinator finds `out == 0`. */
  lemma NoneBusy(s: State)
    requires Counted(s) && s.out == 0
    ensures s.workc == [] && s.resc == []
    ensures forall i :: 0 <= i < |s.workers| ==> s.workers[i].Idle? || s.workers[i].Exited?
  {
    forall i | 0 <= i < |s.workers|
      ensures s.workers[i].Idle? || s.workers[i].Exited?
    {
      SumAtLeast(s.workers, i, Busy);
    }
  }

  lemma StepCounted(cfg: Config, s: State, a: Action)
    requires Inv(cfg, s) && !Closed(s) && Enabled(cfg, s, a)
    ensures Counted(Apply(cfg, s, a))
  {
    var s' := Apply(cfg, s, a);
    match a {
      case Take(i) => SumUpdate(s.workers, i, s'.workers[i], Busy);
      case Go(i) => SumUpdate(s.workers, i, s'.workers[i], Busy);
      case Push(i) => SumUpdate(s.workers, i, s'.workers[i], Busy);
      case Deliver(i) => SumUpdate(s.workers, i, s'.workers[i], Busy);
      case _ =>
    }
  }

  lemma StepInv(cfg: Config, s: State, a: Action)
    requires cfg.numWorkers >= 1 && Inv(cfg, s) && Enabled(cfg, s, a)
    ensures Inv(cfg, Apply(cfg, s, a))
  {
    if !Closed(s) {
      StepCounted(cfg, s, a);
      if s.coord.Rechecking? {
        NoneBusy(s);
      }
    }
  }

  lemma {:induction false} RunInv(cfg: Config, s: State, acts: seq<Action>, t: State)
    requires cfg.numWorkers >= 1 && Inv(cfg, s) && Run(cfg, s, acts, t)
    ensures Inv(cfg, t)
    decreases |acts|
  {
    if acts == [] {
    } else {
      StepInv(cfg, s, acts[0]);
      RunInv(cfg, Apply(cfg, s, acts[0]), acts[1..], t);
    }
  }

  /** A walk that has failed stays so, and until then no item is dropped. */
  lemma FailedStays(cfg: Config, s: State, a: Action)
    requires Enabled(cfg, s, a) && Failed(s)
    ensures Failed(Apply(cfg, s, a))
  {
  }

  lemma NoDropWhileIdle(cfg: Config, s: State, a: Action)
    requires Inv(cfg, s) && Enabled(cfg, s, a) && !Failed(s)
    ensures !a.Drop?
  {
  }

  /** What `out` means, at every point of every run. */
  lemma OutCountsUnfinishedItems(cfg: Config, acts: seq<Action>, s: State)
    requires cfg.numWorkers >= 1 && Run(cfg, Init(cfg), acts, s) && !Closed(s)
    ensures s.out == |s.workc| + Sum(s.workers, Busy) + |s.resc|
  {
    InitInv(cfg);
    RunInv(cfg, Init(cfg), acts, s);
  }

  /** When Walk takes `return nil`, nothing is queued anywhere and every worker is idle; and it
      stays so until the last worker has gone. */
  lemma NilReturnIsQuiescent(cfg: Config, acts: seq<Action>, s: State)
    requires cfg.numWorkers >= 1 && Run(cfg, Init(cfg), acts, s)
    requires s.coord == Returning(Nil) || s.coord == Returned(Nil)
    ensures s.todo == [] && s.workc == [] && s.enqueuec == [] && s.resc == []
    ensures forall i :: 0 <= i < |s.workers| ==> s.workers[i].Idle? || s.workers[i].Exited?
  {
    InitInv(cfg);
    RunInv(cfg, Init(cfg), acts, s);
  }

  // ----- no deadlock

  /** An action that worker `i` can take, when no channel holds it up. */
  lemma WorkerCanStep(cfg: Config, s: State, i: nat) returns (a: Action)
    requires i < |s.workers| && !s.workers[i].Exited?
    requires s.workers[i].Idle? ==> s.workc != [] || Closed(s)
    requires s.workers[i].Enqueueing? ==> |s.enqueuec| < cfg.numWorkers || Closed(s)
    requires s.workers[i].Sending? ==> |s.resc| < cfg.numWorkers || Closed(s)
    ensures Enabled(cfg, s, a)
  {
    match s.workers[i] {
      case Idle => a := if s.workc != [] then Take(i) else Quit(i);
      case Enqueueing(_, _, _, _) => a := if Closed(s) then Drop(i) else Push(i);
      case Sending(_) => a := if Closed(s) then Quit(i) else Deliver(i);
      case _ => a := Go(i);
    }
  }

  /** Before Walk has returned, some goroutine can move: also with every worker blocked in
      enqueue on a full channel, and with nothing left but the final check to make. */
  lemma DeadlockFree(cfg: Config, acts: seq<Action>, s: State)
    requires cfg.numWorkers >= 1 && Run(cfg, Init(cfg), acts, s)
    requires !s.coord.Returned?
    ensures exists a :: Enabled(cfg, s, a)
  {
    InitInv(cfg);
    RunInv(cfg, Init(cfg), acts, s);
    var a := SomeStep(cfg, s);
  }

  lemma SomeStep(cfg: Config, s: State) returns (a: Action)
    requires cfg.numWorkers >= 1 && Inv(cfg, s) && !s.coord.Returned?
    ensures Enabled(cfg, s, a)
  {
    match s.coord {
      case Rechecking => a := Recheck;
      case Returning(_) =>
        if i: nat :| i < |s.workers| && !s.workers[i].Exited? {
          a := WorkerCanStep(cfg, s, i);
        } else {
          a := Join;
        }
      case Selecting =>
        if s.todo != [] && |s.workc| < cfg.numWorkers {
          a := Feed;
        } else if s.enqueuec != [] {
          a := Collect;
        } else if s.resc != [] {
          a := Receive;
        } else if s.workc != [] && s.workers[0].Idle? {
          a := Take(0);
        } else if s.workers[0].Idle? {
          var i := SumWitness(s.workers, Busy);
          a := WorkerCanStep(cfg, s, i);
        } else {
          a := WorkerCanStep(cfg, s, 0);
        }
    }
  }

  // ----- shutdown

  /** Steps a worker can still take without receiving another item. */
  function LocalSteps(cfg: Config, w: Worker): nat {
    match w
    case Exited => 0
    case Idle => 1
    case Sending(_) => 4
    case Reporting(_, _) => 5
    case Reading(_, rest, _) => 6 + 2 * |rest|
    case Enqueueing(_, rest, _, _) => 7 + 2 * |rest|
    case Entering(it) => EntryCost(cfg, it)
  }

  function EntryCost(cfg: Config, it: Item): nat {
    7 + 2 * |cfg.fs.list(it.dir).entries|
  }

  ghost function WorkerSteps(cfg: Config): Worker -> nat {
    (w: Worker) => LocalSteps(cfg, w)
  }

  ghost function LeftoverSteps(cfg: Config): Item -> nat {
    (it: Item) => EntryCost(cfg, it)
  }

  ghost function ShutdownSteps(cfg: Config, s: State): nat {
    Sum(s.workc, LeftoverSteps(cfg)) + Sum(s.workers, WorkerSteps(cfg)) + if s.coord.Returned? then 0 else 1
  }

  lemma AdvanceLocal(cfg: Config, w: Worker, log: seq<Event>)
    requires Active(w)
    ensures LocalSteps(cfg, Advance(cfg, w, log).next) < LocalSteps(cfg, w)
  {
  }

  /** A worker that does not take another item comes closer to its end. */
  lemma WorkerDescends(cfg: Config, s: State, a: Action)
    requires Enabled(cfg, s, a) && IsWorkerAction(a) && !a.Take?
    ensures LocalSteps(cfg, Apply(cfg, s, a).workers[a.i]) < LocalSteps(cfg, s.workers[a.i])
    ensures Apply(cfg, s, a).workc == s.workc && Apply(cfg, s, a).coord == s.coord
    ensures Apply(cfg, s, a).workers == s.workers[a.i := Apply(cfg, s, a).workers[a.i]]
  {
    if a.Go? {
      AdvanceLocal(cfg, s.workers[a.i], s.log);
    }
  }

  lemma ClosedStepDescends(cfg: Config, s: State, a: Action)
    requires Closed(s) && Enabled(cfg, s, a)
    ensures Closed(Apply(cfg, s, a))
    ensures ShutdownSteps(cfg, Apply(cfg, s, a)) < ShutdownSteps(cfg, s)
  {
    if a.Take? {
      SumUpdate(s.workers, a.i, Entering(s.workc[0]), WorkerSteps(cfg));
    } else if IsWorkerAction(a) {
      WorkerDescends(cfg, s, a);
      SumUpdate(s.workers, a.i, Apply(cfg, s, a).workers[a.i], WorkerSteps(cfg));
    }
  }

  /** Once donec is closed, every schedule is over after at most `ShutdownSteps` steps, even if the
      workers keep taking leftover items; so wg.Wait returns. */
  lemma {:induction false} ShutdownIsBounded(cfg: Config, s: State, acts: seq<Action>, t: State)
    requires Closed(s) && Run(cfg, s, acts, t)
    ensures Closed(t) && t.coord.err == s.coord.err
    ensures |acts| + ShutdownSteps(cfg, t) <= ShutdownSteps(cfg, s)
    decreases |acts|
  {
    if acts == [] {
    } else {
      ClosedStepDescends(cfg, s, acts[0]);
      ShutdownIsBounded(cfg, Apply(cfg, s, acts[0]), acts[1..], t);
    }
  }

  /** After Walk has returned nothing moves: no callback runs any more. */
  lemma ReturnedIsFinal(cfg: Config, acts: seq<Action>, s: State, a: Action)
    requires cfg.numWorkers >= 1 && Run(cfg, Init(cfg), acts, s) && s.coord.Returned?
    ensures !Enabled(cfg, s, a)
  {
    InitInv(cfg);
    RunInv(cfg, Init(cfg), acts, s);
  }
}
