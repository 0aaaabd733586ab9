/** One directory that cannot be read makes a walk with either adapter return SkipDir, although the wrapped
    callback answers nil to everything. */
module Unreadable {
  import opened Entries
  import opened Protocol
  import opened Safety
  import opened Graph
  import opened GraphSearch
  import opened AtMostOnce
  import opened SearchTermination
  import opened ReadOnce
  import A = Adapters

  lemma {:induction false} NothingToPay(t: Search, log: seq<Event>)
    requires PassesAll(t)
    ensures AskedCost(t, log) == 0
    decreases |log|
  {
    if log != [] {
      NothingToPay(t, log[..|log| - 1]);
    }
  }

  /** Every run of such a walk can be carried on until Walk returns. */
  lemma {:induction false} Finishes(t: Search, acts: seq<Action>, s: State) returns (acts': seq<Action>, s': State)
    requires PassesAll(t) && Run(t.cfg, Init(t.cfg), acts, s)
    ensures Run(t.cfg, Init(t.cfg), acts', s') && s'.coord.Returned?
    decreases Cost(t.g, DirKeys(t.g)) + t.cfg.numWorkers + 10 - |acts|
  {
    if s.coord.Returned? {
      acts', s' := acts, s;
    } else {
      DeadlockFree(t.cfg, acts, s);
      var a :| Enabled(t.cfg, s, a);
      acts', s' := Then(t.cfg, acts, s, a);
      SearchTerminates(t, acts', s');
      NothingToPay(t, s'.log);
      acts', s' := Finishes(t, acts', s');
    }
  }

  /** A directory that cannot be read can be reached. */
  ghost predicate Blocked(t: Search) {
    exists k :: Reachable(t, k) && Broken(t.g, k)
  }

  lemma ReturnsSkipDirIfBlocked(t: Search, acts: seq<Action>, s: State)
    requires Searches(t) && Tolerant(t) && Run(t.cfg, Init(t.cfg), acts, s) && s.coord.Returned?
    ensures s.coord.err == if Blocked(t) then SkipDir else Nil
  {
    NilExactlyIfReadable(t, acts, s);
  }

  /** Around a callback that answers nil to everything: Walk can return SkipDir if and only if it can reach
      a directory that cannot be read, and then it can return nothing else. */
  lemma SkipDirExactlyIfUnreadable(t: Search)
    requires Searches(t) && Tolerant(t)
    ensures CanReturn(t.cfg, SkipDir) <==> Blocked(t)
    ensures Blocked(t) ==> forall err :: CanReturn(t.cfg, err) ==> err == SkipDir
  {
    forall err | CanReturn(t.cfg, err)
      ensures err == if Blocked(t) then SkipDir else Nil
    {
      var acts, s :| Run(t.cfg, Init(t.cfg), acts, s) && s.coord == Returned(err);
      ReturnsSkipDirIfBlocked(t, acts, s);
    }
    var acts, s := Finishes(t, [], Init(t.cfg));
    ReturnsSkipDirIfBlocked(t, acts, s);
    assert s.coord == Returned(s.coord.err);
    assert CanReturn(t.cfg, s.coord.err);
  }

  // ----- an input

  const BASE: FileKey := FileKey(0, 2)

  /** A directory that must not be read. */
  const LOCKED: Graph := Graph(BASE, map[BASE := Dir([], Failure(13))])

  function Silent(): A.Inner {
    (calls: seq<Call>, c: Call) => Nil
  }

  function Example(kind: A.Kind): Search {
    var fs := FileSystemOf(LOCKED);
    Search(Config(fs, [], false, 0, 1, A.Wrapped(kind, fs, Silent())), LOCKED, kind, Silent())
  }

  /** With either adapter, a run that ends with SkipDir. */
  lemma UnreadableExample(kind: A.Kind) returns (acts: seq<Action>, s: State)
    ensures Wraps(Example(kind)) && Example(kind).inner == Silent()
    ensures Run(Example(kind).cfg, Init(Example(kind).cfg), acts, s) && s.coord == Returned(SkipDir)
  {
    var t := Example(kind);
    assert Searches(t) && Tolerant(t);
    assert Names(t.g, t.cfg.root, BASE) && IsPrefix(t.cfg.root, t.cfg.root);
    assert Reachable(t, BASE) && Broken(t.g, BASE);
    acts, s := Finishes(t, [], Init(t.cfg));
    ReturnsSkipDirIfBlocked(t, acts, s);
  }
}
