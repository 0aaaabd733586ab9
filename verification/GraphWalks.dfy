/** What is true of every walk of a graph: its directories have distinct names, so the results about
    paths hold, whatever the callback answers and however the links run in cycles. */
module GraphWalks {
  import opened Entries
  import opened Protocol
  import opened Ledger
  import opened Ownership
  import opened Graph
  import C = Consent
  import K = SkippedFiles

  lemma GraphUniquelyNamed(g: Graph)
    requires Valid(g)
    ensures UniquelyNamed(FileSystemOf(g))
  {
    forall p
      ensures UniqueNames(FileSystemOf(g).list(p).entries)
    {
    }
  }

  /** No path gets two calls without an error, and none is opened twice. */
  lemma PathsOnce(cfg: Config, g: Graph, acts: seq<Action>, s: State, p: Path)
    requires Valid(g) && cfg.fs == FileSystemOf(g) && Run(cfg, Init(cfg), acts, s)
    ensures Sum(s.log, IsCallFor(p)) <= 1
    ensures Sum(s.log, K.IsOpening(p)) <= 1
  {
    GraphUniquelyNamed(g);
    CalledOnce(cfg, acts, s, p);
    K.OpenedOnce(cfg, acts, s, p);
  }

  /** Below a path that the callback prunes nothing is called. */
  lemma NothingBelowPruned(cfg: Config, g: Graph, acts: seq<Action>, s: State, i: nat, p: Path)
    requires Valid(g) && cfg.fs == FileSystemOf(g) && Run(cfg, Init(cfg), acts, s)
    requires i < |s.log| && s.log[i].Called? && s.log[i].call.err == Nil
    requires !C.Permits(cfg, s.log[i].call, cfg.fn(s.log[..i], s.log[i].call))
    requires StrictPrefix(s.log[i].call.path, p)
    ensures forall c :: Called(c) in s.log ==> c.path != p
  {
    GraphUniquelyNamed(g);
    forall c | Called(c) in s.log
      ensures c.path != p
    {
      var j :| 0 <= j < |s.log| && s.log[j] == Called(c);
      C.PrunedStaysPruned(cfg, acts, s, i, j);
    }
  }
}
