/** Every error that Walk may return it does return in some run: the calls above the one that is to fail
    first are left waiting if they fail themselves, and carried through if they do not. */
module Schedules {
  import opened Entries
  import opened Protocol
  import opened Ledger
  import opened Safety
  import opened SequentialWalk
  import opened Refinement
  import opened Outcomes

  /** Worker `i` is `w`, and nothing but the stack and `workc` holds items. */
  ghost predicate At(cfg: Config, s: State, i: nat, w: Worker) {
    && s.coord.Selecting? && s.enqueuec == [] && s.resc == []
    && |s.workers| == cfg.numWorkers && i < |s.workers| && s.workers[i] == w
  }

  /** Apart from worker `i`, and from the stack, `s'` is as `s`. */
  ghost predicate OnlyWorker(s: State, s': State, i: nat) {
    && i < |s.workers| == |s'.workers|
    && s'.workers == s.workers[i := s'.workers[i]]
    && s'.workc == s.workc
  }

  /** One step of a worker that is busy, and the queueing of what it enqueues. */
  lemma Moves(cfg: Config, acts: seq<Action>, s: State, i: nat, w: Worker)
    returns (acts': seq<Action>, s': State, w': Worker)
    requires Pure(cfg) && Run(cfg, Init(cfg), acts, s) && At(cfg, s, i, w) && (Active(w) || w.Enqueueing?)
    ensures Run(cfg, Init(cfg), acts', s') && At(cfg, s', i, w') && OnlyWorker(s, s', i)
    ensures LocalSteps(cfg, w') < LocalSteps(cfg, w) && Busy(w') == 1
    ensures Future(cfg, w').res == Future(cfg, w).res
    ensures Future(cfg, w).kids == (if w.Enqueueing? then [w.pending] else []) + Future(cfg, w').kids
    ensures w.Enqueueing? ==> s'.todo == s.todo + [w.pending]
  {
    if w.Enqueueing? {
      acts', s' := Queue(cfg, acts, s, i);
      w' := Reading(w.it, w.rest, w.skipFiles);
      QueuedFuture(cfg, w);
    } else {
      acts', s' := Then(cfg, acts, s, Go(i));
      w' := Advance(cfg, w, s.log).next;
      AdvanceKeepsFuture(cfg, w, s.log);
      AdvanceLocal(cfg, w, s.log);
    }
  }

  /** A worker can be brought to the point where it enqueues `x`... */
  lemma {:induction false} Reaches(cfg: Config, acts: seq<Action>, s: State, i: nat, w: Worker, x: Item)
    returns (acts': seq<Action>, s': State, w': Worker)
    requires Pure(cfg) && Run(cfg, Init(cfg), acts, s) && At(cfg, s, i, w) && Busy(w) == 1
    requires x in Future(cfg, w).kids
    ensures Run(cfg, Init(cfg), acts', s') && At(cfg, s', i, w') && OnlyWorker(s, s', i)
    ensures w'.Enqueueing? && w'.pending == x && Future(cfg, w').res == Future(cfg, w).res
    decreases LocalSteps(cfg, w)
  {
    if w.Enqueueing? && w.pending == x {
      acts', s', w' := acts, s, w;
    } else {
      acts', s', w' := Moves(cfg, acts, s, i, w);
      acts', s', w' := Reaches(cfg, acts', s', i, w', x);
    }
  }

  /** ... or to its end. */
  lemma {:induction false} Ends(cfg: Config, acts: seq<Action>, s: State, i: nat, w: Worker)
    returns (acts': seq<Action>, s': State)
    requires Pure(cfg) && Run(cfg, Init(cfg), acts, s) && At(cfg, s, i, w) && Busy(w) == 1
    ensures Run(cfg, Init(cfg), acts', s') && At(cfg, s', i, Sending(Future(cfg, w).res)) && OnlyWorker(s, s', i)
    decreases LocalSteps(cfg, w)
  {
    if w.Sending? {
      acts', s' := acts, s;
    } else {
      var w';
      acts', s', w' := Moves(cfg, acts, s, i, w);
      acts', s' := Ends(cfg, acts', s', i, w');
    }
  }

  // ----- one item further

  lemma SameBusy(s: State, s': State, i: nat)
    requires OnlyWorker(s, s', i) && Busy(s.workers[i]) == Busy(s'.workers[i])
    ensures Sum(s'.workers, Busy) == Sum(s.workers, Busy)
  {
    SumUpdate(s.workers, i, s'.workers[i], Busy);
  }

  /** A worker at the item above enqueues `x`, and `x` is put into `workc`. */
  lemma Hands(cfg: Config, acts: seq<Action>, s: State, i: nat, it: Item, x: Item)
    returns (acts': seq<Action>, s': State, w: Worker)
    requires Pure(cfg) && cfg.numWorkers >= 1 && Run(cfg, Init(cfg), acts, s)
    requires At(cfg, s, i, Entering(it)) && s.workc == [] && x in Kids(cfg)(it)
    ensures Run(cfg, Init(cfg), acts', s') && At(cfg, s', i, w) && s'.workc == [x]
    ensures Busy(w) == 1 && Future(cfg, w).res == Visit(cfg, it).res
    ensures Sum(s'.workers, Busy) == Sum(s.workers, Busy)
  {
    var s1, s2, w1;
    acts', s1, w1 := Reaches(cfg, acts, s, i, Entering(it), x);
    SameBusy(s, s1, i);
    acts', s2, w := Moves(cfg, acts', s1, i, w1);
    SameBusy(s1, s2, i);
    assert s2.todo[|s2.todo| - 1] == x;
    acts', s' := Then(cfg, acts', s2, Feed);
    assert [] + [x] == [x];
  }

  /** A call that succeeds gives its worker back, while `workc` keeps the coordinator going. */
  lemma Succeeds(cfg: Config, acts: seq<Action>, s: State, i: nat) returns (acts': seq<Action>, s': State)
    requires cfg.numWorkers >= 1 && Run(cfg, Init(cfg), acts, s) && At(cfg, s, i, Sending(Nil)) && s.workc != []
    ensures Run(cfg, Init(cfg), acts', s') && At(cfg, s', i, Idle) && OnlyWorker(s, s', i)
  {
    var s1;
    acts', s1 := Then(cfg, acts, s, Deliver(i));
    assert s1.resc == [Nil] && s1.resc[1..] == [];
    InitInv(cfg);
    RunInv(cfg, Init(cfg), acts', s1);
    acts', s' := Then(cfg, acts', s1, Receive);
  }

  lemma SomeoneIdle(cfg: Config, acts: seq<Action>, s: State) returns (f: nat)
    requires cfg.numWorkers >= 1 && Run(cfg, Init(cfg), acts, s) && !Closed(s)
    requires Sum(s.workers, Busy) < cfg.numWorkers
    ensures f < |s.workers| && s.workers[f].Idle?
  {
    InitInv(cfg);
    RunInv(cfg, Init(cfg), acts, s);
    if forall i :: 0 <= i < |s.workers| ==> !s.workers[i].Idle? {
      AllBusy(s.workers);
    }
    f :| f < |s.workers| && s.workers[f].Idle?;
  }

  lemma {:induction false} AllBusy(ws: seq<Worker>)
    requires forall i :: 0 <= i < |ws| ==> !ws[i].Idle? && !ws[i].Exited?
    ensures Sum(ws, Busy) == |ws|
  {
    if ws != [] {
      AllBusy(ws[1..]);
    }
  }

  lemma Takes(cfg: Config, acts: seq<Action>, s: State, f: nat, x: Item) returns (acts': seq<Action>, s': State)
    requires Run(cfg, Init(cfg), acts, s) && At(cfg, s, f, Idle) && s.workc == [x]
    ensures Run(cfg, Init(cfg), acts', s') && At(cfg, s', f, Entering(x)) && s'.workc == []
    ensures Sum(s'.workers, Busy) == Sum(s.workers, Busy) + 1
  {
    acts', s' := Then(cfg, acts, s, Take(f));
    SumUpdate(s.workers, f, Entering(x), Busy);
  }

  /** From an item to one that its call of walk enqueues: if that call fails, its worker is left where it
      is, and another takes the item. */
  lemma Descends(cfg: Config, acts: seq<Action>, s: State, i: nat, it: Item, x: Item)
    returns (acts': seq<Action>, s': State, i': nat)
    requires Pure(cfg) && cfg.numWorkers >= 1 && Run(cfg, Init(cfg), acts, s)
    requires At(cfg, s, i, Entering(it)) && s.workc == [] && x in Kids(cfg)(it)
    requires Sum(s.workers, Busy) + Fails(cfg)(it) <= cfg.numWorkers
    ensures Run(cfg, Init(cfg), acts', s') && At(cfg, s', i', Entering(x)) && s'.workc == []
    ensures Sum(s'.workers, Busy) == Sum(s.workers, Busy) + Fails(cfg)(it)
  {
    var s1, w;
    acts', s1, w := Hands(cfg, acts, s, i, it, x);
    if Visit(cfg, it).res != Nil {
      i' := SomeoneIdle(cfg, acts', s1);
      acts', s' := Takes(cfg, acts', s1, i', x);
    } else {
      i' := i;
      acts', s' := Releases(cfg, acts', s1, i, w, x);
    }
  }

  lemma Releases(cfg: Config, acts: seq<Action>, s: State, i: nat, w: Worker, x: Item)
    returns (acts': seq<Action>, s': State)
    requires Pure(cfg) && cfg.numWorkers >= 1 && Run(cfg, Init(cfg), acts, s)
    requires At(cfg, s, i, w) && Busy(w) == 1 && Future(cfg, w).res == Nil && s.workc == [x]
    ensures Run(cfg, Init(cfg), acts', s') && At(cfg, s', i, Entering(x)) && s'.workc == []
    ensures Sum(s'.workers, Busy) == Sum(s.workers, Busy)
  {
    var s1, s2;
    acts', s1 := Ends(cfg, acts, s, i, w);
    SameBusy(s, s1, i);
    acts', s2 := Succeeds(cfg, acts', s1, i);
    SumUpdate(s1.workers, i, Idle, Busy);
    acts', s' := Takes(cfg, acts', s2, i, x);
  }

  // ----- down the chain

  lemma TakesRoot(cfg: Config, root: Item) returns (acts: seq<Action>, s: State)
    requires Starts(cfg, root)
    ensures Run(cfg, Init(cfg), acts, s) && At(cfg, s, 0, Entering(root)) && s.workc == []
    ensures Sum(s.workers, Busy) == 1
  {
    SumZero(Init(cfg).workers, Busy);
    acts, s := TakeFirst(cfg, [], Init(cfg), root, 0);
    SumUpdate(Init(cfg).workers, 0, Entering(root), Busy);
  }

  lemma ChainAbove(cfg: Config, root: Item, c: seq<Item>)
    requires Chain(cfg, root, c) && |c| > 1
    ensures Chain(cfg, root, Above(c)) && Last(c) in Kids(cfg)(Last(Above(c)))
    ensures Sum(Above(c), Fails(cfg)) == Sum(Above(Above(c)), Fails(cfg)) + Fails(cfg)(Last(Above(c)))
  {
    AboveAndLast(cfg, Above(c));
    assert c[|c| - 2 + 1] in Kids(cfg)(c[|c| - 2]);
  }

  /** A worker can be brought to the end of any chain with fewer failing calls than workers. */
  lemma {:induction false} Climbs(cfg: Config, root: Item, c: seq<Item>)
    returns (acts: seq<Action>, s: State, i: nat)
    requires Pure(cfg) && Starts(cfg, root) && Chain(cfg, root, c) && Sum(Above(c), Fails(cfg)) < cfg.numWorkers
    ensures Run(cfg, Init(cfg), acts, s) && At(cfg, s, i, Entering(Last(c))) && s.workc == []
    ensures Sum(s.workers, Busy) == 1 + Sum(Above(c), Fails(cfg))
    decreases |c|
  {
    if |c| == 1 {
      acts, s := TakesRoot(cfg, root);
      i := 0;
    } else {
      ChainAbove(cfg, root, c);
      acts, s, i := Climbs(cfg, root, Above(c));
      acts, s, i := Descends(cfg, acts, s, i, Last(Above(c)), Last(c));
    }
  }

  // ----- the error is returned

  /** Once donec is closed, Walk can be carried to its end. */
  lemma {:induction false} ClosesDown(cfg: Config, acts: seq<Action>, s: State) returns (acts': seq<Action>, s': State)
    requires cfg.numWorkers >= 1 && Run(cfg, Init(cfg), acts, s) && Closed(s)
    ensures Run(cfg, Init(cfg), acts', s') && s'.coord == Returned(s.coord.err)
    decreases ShutdownSteps(cfg, s)
  {
    if s.coord.Returned? {
      acts', s' := acts, s;
    } else {
      DeadlockFree(cfg, acts, s);
      var a :| Enabled(cfg, s, a);
      ClosedStepDescends(cfg, s, a);
      acts', s' := Then(cfg, acts, s, a);
      acts', s' := ClosesDown(cfg, acts', s');
    }
  }

  lemma FailsFirst(cfg: Config, acts: seq<Action>, s: State, i: nat, e: Error)
    returns (acts': seq<Action>, s': State)
    requires cfg.numWorkers >= 1 && Run(cfg, Init(cfg), acts, s) && At(cfg, s, i, Sending(e)) && e != Nil
    ensures Run(cfg, Init(cfg), acts', s') && s'.coord == Returned(e)
  {
    var s1, s2;
    acts', s1 := Then(cfg, acts, s, Deliver(i));
    assert s1.resc == [e];
    acts', s2 := Then(cfg, acts', s1, Receive);
    acts', s' := ClosesDown(cfg, acts', s2);
  }

  /** For any callback that is a function of its arguments, on any file system: Walk can return the error
      `e` if and only if some call of walk in the recursive walk, finite or not, results in `e`, and of
      those it is nested in fewer fail than there are workers. */
  lemma ReturnsExactly(cfg: Config, root: Item, e: Error)
    requires Pure(cfg) && Starts(cfg, root) && e != Nil
    ensures CanReturn(cfg, e) <==> Returnable(cfg, root, e)
  {
    if CanReturn(cfg, e) {
      var acts, s :| Run(cfg, Init(cfg), acts, s) && s.coord == Returned(e);
      InitOutcome(cfg, root);
      RunOutcome(cfg, root, Init(cfg), acts, s);
    }
    if Returnable(cfg, root, e) {
      var c :| ReturnableBy(cfg, root, e, c);
      var acts, s, i := Climbs(cfg, root, c);
      acts, s := Ends(cfg, acts, s, i, Entering(Last(c)));
      acts, s := FailsFirst(cfg, acts, s, i, e);
      assert CanReturn(cfg, e);
    }
  }
}
