/** Walk, run by any scheduler that moves whenever something can move. */
module Walker {
  import opened Entries
  import opened Protocol
  import opened Safety
  import opened SequentialWalk
  import opened Refinement
  import opened Results
  import opened Termination

  /** If the root cannot be statted, Walk fails without a callback. Otherwise, if the sequential walk
      terminates, then so does Walk, with the same outcome. */
  method Walk(cfg: Config, scheduler: State -> Action, ghost root: Item, ghost k: nat)
    returns (err: Error, log: seq<Event>)
    requires cfg.numWorkers >= 1 && Pure(cfg)
    requires cfg.fs.stat(cfg.root).Some? ==> Starts(cfg, root) && SeqTerminates(cfg, root, k)
    requires forall s :: (exists a :: Enabled(cfg, s, a)) ==> Enabled(cfg, s, scheduler(s))
    ensures cfg.fs.stat(cfg.root).None? ==> err == STAT_ERROR && err != Nil && log == []
    ensures cfg.fs.stat(cfg.root).Some? ==>
              && (err == Nil <==> forall e :: e in SeqResults(cfg, root, k) ==> e == Nil)
              && (err != Nil ==> err in SeqResults(cfg, root, k))
              && (err == Nil ==> multiset(log) == multiset(SeqWalk(cfg, root, k)))
              && multiset(log) <= multiset(SeqWalk(cfg, root, k))
  {
    var s := Init(cfg);
    if cfg.fs.stat(cfg.root).None? {
      return s.coord.err, s.log;
    }
    ghost var acts: seq<Action> := [];
    while !s.coord.Returned?
      invariant Run(cfg, Init(cfg), acts, s)
      decreases StepBound(cfg, Kids(cfg), root, k) - |acts|
    {
      DeadlockFree(cfg, acts, s);
      var a := scheduler(s);
      RunExtend(cfg, Init(cfg), acts, s, a);
      acts := acts + [a];
      s := Apply(cfg, s, a);
      TerminatesIfSequentialDoes(cfg, root, k, acts, s);
    }
    WhatWalkReturns(cfg, acts, s, root, k);
    NothingExtra(cfg, acts, s, root, k);
    if s.coord.err == Nil {
      NothingLost(cfg, acts, s, root, k);
    }
    return s.coord.err, s.log;
  }
}
