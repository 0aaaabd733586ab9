/** Which error Walk returns: nil exactly when every call of walk in the sequential walk returns
    nil, and otherwise the result of one of them. */
module Results {
  import opened Entries
  import opened Protocol
  import opened Ledger
  import opened Safety
  import opened SequentialWalk
  import opened Refinement

  ghost function ResultsOf(cfg: Config, k: nat, e: Error, busy: nat, o: Outcome): nat {
    (if busy == 1 && o.res == e then 1 else 0) + Sum(o.kids, Count(Kids(cfg), OwnResult(cfg), k, e))
  }

  ghost function OwedResult(cfg: Config, k: nat, e: Error): Worker -> nat {
    (w: Worker) => ResultsOf(cfg, k, e, Busy(w), Future(cfg, w))
  }

  /** Results equal to `e` that are still to come, or wait in resc. */
  ghost function Outstanding(cfg: Config, s: State, k: nat, e: Error): nat {
    Total(s, Count(Kids(cfg), OwnResult(cfg), k, e), OwedResult(cfg, k, e)) + multiset(s.resc)[e]
  }

  lemma GoKeepsResult(cfg: Config, w: Worker, log: seq<Event>, k: nat, e: Error)
    requires Pure(cfg) && Active(w)
    ensures OwedResult(cfg, k, e)(w) == OwedResult(cfg, k, e)(Advance(cfg, w, log).next)
  {
    AdvanceKeepsFuture(cfg, w, log);
    StaysBusy(cfg, w, log);
  }

  lemma TakeKeepsResult(cfg: Config, it: Item, k: nat, e: Error)
    requires Complete(Kids(cfg), it, k)
    ensures Count(Kids(cfg), OwnResult(cfg), k, e)(it) == OwedResult(cfg, k, e)(Entering(it))
  {
    UnfoldCount(Kids(cfg), OwnResult(cfg), it, k, e);
  }

  lemma PushKeepsResult(cfg: Config, w: Worker, k: nat, e: Error)
    requires w.Enqueueing?
    ensures OwedResult(cfg, k, e)(w)
         == OwedResult(cfg, k, e)(Reading(w.it, w.rest, w.skipFiles))
            + Count(Kids(cfg), OwnResult(cfg), k, e)(w.pending)
  {
    var read := Reading(w.it, w.rest, w.skipFiles);
    QueuedFuture(cfg, w);
    OneMoreKid(cfg, k, e, Future(cfg, read), w.pending);
  }

  lemma OneMoreKid(cfg: Config, k: nat, e: Error, o: Outcome, kid: Item)
    ensures ResultsOf(cfg, k, e, 1, o.(kids := [kid] + o.kids))
         == ResultsOf(cfg, k, e, 1, o) + Count(Kids(cfg), OwnResult(cfg), k, e)(kid)
  {
    SumFirst(kid, o.kids, Count(Kids(cfg), OwnResult(cfg), k, e));
  }

  lemma DoneOwesItsResult(cfg: Config, w: Worker, k: nat, e: Error)
    requires w.Idle? || w.Exited? || w.Sending?
    ensures OwedResult(cfg, k, e)(w) == if w == Sending(e) then 1 else 0
  {
    DoneHasNoFuture(cfg, w);
  }

  lemma SpendsResults(cfg: Config, s: State, a: Action, k: nat, e: Error)
    requires Pure(cfg) && !Closed(s) && Enabled(cfg, s, a) && Bounded(cfg, s, k)
    ensures Spent(cfg, s, a, Count(Kids(cfg), OwnResult(cfg), k, e), OwedResult(cfg, k, e))
         == if a.Deliver? && s.workers[a.i].res == e then 1 else 0
  {
    if a.Go? {
      GoKeepsResult(cfg, s.workers[a.i], s.log, k, e);
    } else {
      ChannelSpendsResults(cfg, s, a, k, e);
    }
  }

  lemma TakeSpendsResult(cfg: Config, s: State, i: nat, k: nat, e: Error)
    requires Enabled(cfg, s, Take(i)) && Bounded(cfg, s, k)
    ensures Spent(cfg, s, Take(i), Count(Kids(cfg), OwnResult(cfg), k, e), OwedResult(cfg, k, e))
         == 0
  {
    TakenComplete(cfg, s, k);
    TakeKeepsResult(cfg, s.workc[0], k, e);
    DoneOwesItsResult(cfg, Idle, k, e);
  }

  lemma DeliverSpendsResult(cfg: Config, s: State, i: nat, k: nat, e: Error)
    requires Enabled(cfg, s, Deliver(i))
    ensures Spent(cfg, s, Deliver(i), Count(Kids(cfg), OwnResult(cfg), k, e), OwedResult(cfg, k, e))
         == if s.workers[i].res == e then 1 else 0
  {
    DoneOwesItsResult(cfg, s.workers[i], k, e);
    DoneOwesItsResult(cfg, Idle, k, e);
  }

  lemma ChannelSpendsResults(cfg: Config, s: State, a: Action, k: nat, e: Error)
    requires Pure(cfg) && !Closed(s) && Enabled(cfg, s, a) && Bounded(cfg, s, k) && !a.Go?
    ensures Spent(cfg, s, a, Count(Kids(cfg), OwnResult(cfg), k, e), OwedResult(cfg, k, e))
         == if a.Deliver? && s.workers[a.i].res == e then 1 else 0
  {
    match a {
      case Take(i) => TakeSpendsResult(cfg, s, i, k, e);
      case Push(i) => PushKeepsResult(cfg, s.workers[i], k, e);
      case Deliver(i) => DeliverSpendsResult(cfg, s, i, k, e);
      case _ =>
    }
  }

  /** While Walk runs, `Outstanding` only falls when the coordinator receives such a result. */
  lemma StepKeepsResults(cfg: Config, s: State, a: Action, k: nat, e: Error)
    requires Pure(cfg) && !Closed(s) && Enabled(cfg, s, a) && Bounded(cfg, s, k)
    ensures Outstanding(cfg, Apply(cfg, s, a), k, e)
         == Outstanding(cfg, s, k, e) - if a.Receive? && s.resc[0] == e then 1 else 0
  {
    TotalStep(cfg, s, a, Count(Kids(cfg), OwnResult(cfg), k, e), OwedResult(cfg, k, e));
    SpendsResults(cfg, s, a, k, e);
    RescChanges(cfg, s, a, e);
  }

  lemma RescChanges(cfg: Config, s: State, a: Action, e: Error)
    requires Enabled(cfg, s, a)
    ensures multiset(Apply(cfg, s, a).resc)[e]
         == multiset(s.resc)[e]
            + (if a.Deliver? && s.workers[a.i].res == e then 1 else 0)
            - (if a.Receive? && s.resc[0] == e then 1 else 0)
  {
    if a.Receive? {
      assert s.resc == [s.resc[0]] + s.resc[1..];
    }
  }

  /** What is known about `e`, of which the sequential walk returns `n`. */
  ghost predicate ResultInv(cfg: Config, s: State, k: nat, e: Error, n: nat) {
    && (!Closed(s) ==> Outstanding(cfg, s, k, e) == n)
    && (Closed(s) && s.coord.err == e ==> n > 0)
    && (Closed(s) && s.coord.err == Nil ==> n == 0)
  }

  lemma QuietHasNoResult(cfg: Config, s: State, k: nat, e: Error)
    requires e != Nil && Quiet(s)
    ensures Outstanding(cfg, s, k, e) == 0
  {
    forall i | 0 <= i < |s.workers|
      ensures OwedResult(cfg, k, e)(s.workers[i]) == 0
    {
      DoneOwesItsResult(cfg, s.workers[i], k, e);
    }
    SumZero(s.workers, OwedResult(cfg, k, e));
  }

  lemma RecheckIsQuiet(cfg: Config, s: State)
    requires Inv(cfg, s) && s.coord.Rechecking? && s.enqueuec == []
    ensures Quiet(s)
  {
    NoneBusy(s);
  }

  /** How donec comes to be closed. */
  lemma Closing(cfg: Config, s: State, a: Action)
    requires Enabled(cfg, s, a)
    ensures var s' := Apply(cfg, s, a);
            && (Closed(s) ==> Closed(s') && s'.coord.err == s.coord.err)
            && (!Closed(s) && Closed(s') ==>
                  || (a.Receive? && s.resc[0] != Nil && s'.coord.err == s.resc[0])
                  || (a.Recheck? && s.enqueuec == [] && s'.coord.err == Nil))
  {
  }

  lemma ReceivedIsOutstanding(cfg: Config, s: State, k: nat)
    requires s.resc != []
    ensures Outstanding(cfg, s, k, s.resc[0]) > 0
  {
  }

  lemma StepResultInv(cfg: Config, s: State, a: Action, k: nat, e: Error, n: nat)
    requires Pure(cfg) && Inv(cfg, s) && Enabled(cfg, s, a) && Bounded(cfg, s, k)
    requires e != Nil && ResultInv(cfg, s, k, e, n)
    ensures ResultInv(cfg, Apply(cfg, s, a), k, e, n)
  {
    Closing(cfg, s, a);
    if !Closed(s) {
      StepKeepsResults(cfg, s, a, k, e);
      if a.Receive? {
        ReceivedIsOutstanding(cfg, s, k);
      } else if a.Recheck? && s.enqueuec == [] {
        RecheckIsQuiet(cfg, s);
        QuietHasNoResult(cfg, s, k, e);
      }
    }
  }

  lemma {:induction false} RunResultInv(cfg: Config, s: State, acts: seq<Action>, t: State, k: nat, e: Error, n: nat)
    requires cfg.numWorkers >= 1 && Pure(cfg) && Inv(cfg, s) && Bounded(cfg, s, k) && Run(cfg, s, acts, t)
    requires e != Nil && ResultInv(cfg, s, k, e, n)
    ensures ResultInv(cfg, t, k, e, n)
    decreases |acts|
  {
    if acts == [] {
    } else {
      StepInv(cfg, s, acts[0]);
      StepConserves(cfg, s, acts[0], k, Opened([]));
      StepResultInv(cfg, s, acts[0], k, e, n);
      RunResultInv(cfg, Apply(cfg, s, acts[0]), acts[1..], t, k, e, n);
    }
  }

  lemma InitResults(cfg: Config, root: Item, k: nat, e: Error)
    requires Starts(cfg, root) && e != Nil
    ensures ResultInv(cfg, Init(cfg), k, e, multiset(SeqResults(cfg, root, k))[e])
  {
    DoneOwesItsResult(cfg, Idle, k, e);
    InitTotal(cfg, root, Count(Kids(cfg), OwnResult(cfg), k, e), OwedResult(cfg, k, e));
  }

  lemma ReturnAgrees(cfg: Config, acts: seq<Action>, s: State, root: Item, k: nat, e: Error)
    requires Starts(cfg, root) && Pure(cfg) && SeqTerminates(cfg, root, k)
    requires Run(cfg, Init(cfg), acts, s) && s.coord.Returned? && e != Nil
    ensures s.coord.err == e ==> e in SeqResults(cfg, root, k)
    ensures s.coord.err == Nil ==> e !in SeqResults(cfg, root, k)
  {
    InitInv(cfg);
    InitOwes(cfg, root, k, Opened([]));
    InitResults(cfg, root, k, e);
    var n := multiset(SeqResults(cfg, root, k))[e];
    RunResultInv(cfg, Init(cfg), acts, s, k, e, n);
    assert n > 0 <==> e in SeqResults(cfg, root, k);
  }

  /** In every interleaving Walk returns nil if and only if no call of walk in the sequential walk
      fails, and an error it returns is one of theirs. */
  lemma WhatWalkReturns(cfg: Config, acts: seq<Action>, s: State, root: Item, k: nat)
    requires Starts(cfg, root) && Pure(cfg) && SeqTerminates(cfg, root, k)
    requires Run(cfg, Init(cfg), acts, s) && s.coord.Returned?
    ensures s.coord.err == Nil <==> forall e :: e in SeqResults(cfg, root, k) ==> e == Nil
    ensures s.coord.err != Nil ==> s.coord.err in SeqResults(cfg, root, k)
  {
    forall e: Error | e != Nil
      ensures s.coord.err == e ==> e in SeqResults(cfg, root, k)
      ensures s.coord.err == Nil ==> e !in SeqResults(cfg, root, k)
    {
      ReturnAgrees(cfg, acts, s, root, k, e);
    }
    if s.coord.err != Nil {
      assert s.coord.err in SeqResults(cfg, root, k);
    }
  }
}
