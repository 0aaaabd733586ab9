/** What the wrapped callback answers reaches the walk: around either adapter its errors are not lost, and its
    ErrSkipFiles is kept. */
module InnerAnswers {
  import opened Entries
  import opened Protocol
  import opened Graph
  import opened GraphSearch
  import opened WalkErrors
  import opened SkippedFiles
  import Ledger
  import E = ErrorsKept
  import W = GraphWalks

  /** The call is passed on to the wrapped callback. */
  ghost predicate PassedOn(t: Search, log: seq<Event>, c: Call) {
    t.kind.Dirs? || NewFile(t, log, c)
  }

  /** An answer of the wrapped callback other than nil is the answer of the adapter. */
  lemma InnerIsAnswer(t: Search, log: seq<Event>, c: Call)
    requires Wraps(t) && PassedOn(t, log, c) && InnerAnswer(t, log, c) != Nil
    requires t.kind.Files? ==> WellTyped(t.g, c.path, c.typ)
    ensures t.cfg.fn(log, c) == InnerAnswer(t, log, c)
  {
    if t.kind.Dirs? {
      DirsAnswer(t, log, c);
    } else {
      FilesAnswer(t, log, c);
    }
  }

  /** The calls of a run are for what their type says. */
  lemma CallsWellTyped(t: Search, acts: seq<Action>, s: State, j: nat)
    requires Wraps(t) && Run(t.cfg, Init(t.cfg), acts, s) && j < |s.log| && s.log[j].Called?
    ensures WellTyped(t.g, s.log[j].call.path, s.log[j].call.typ)
  {
    InitGood(t);
    RunWellTyped(t, Init(t.cfg), acts, s);
  }

  ghost predicate AllWellTyped(g: Graph, log: seq<Event>) {
    forall j :: 0 <= j < |log| && log[j].Called? ==> WellTyped(g, log[j].call.path, log[j].call.typ)
  }

  lemma GoWellTyped(t: Search, w: Worker, log: seq<Event>)
    requires Wraps(t) && Active(w) && GoodWorker(t.g, w)
    ensures AllWellTyped(t.g, Advance(t.cfg, w, log).events)
  {
    if w.Reading? && w.rest != [] {
      FirstEntry(t.g, w.it.dir, w.rest);
    }
  }

  lemma {:induction false} RunWellTyped(t: Search, s: State, acts: seq<Action>, s': State)
    requires Wraps(t) && GoodState(t.g, s) && AllWellTyped(t.g, s.log) && Run(t.cfg, s, acts, s')
    ensures AllWellTyped(t.g, s'.log)
    decreases |acts|
  {
    if acts != [] {
      StepGood(t, s, acts[0]);
      Ledger.LogGrows(t.cfg, s, acts[0]);
      if acts[0].Go? {
        assert GoodWorkers(t.g)(s.workers[acts[0].i]);
        GoWellTyped(t, s.workers[acts[0].i], s.log);
      }
      RunWellTyped(t, Apply(t.cfg, s, acts[0]), acts[1..], s');
    }
  }

  /** The `j`-th event is a call that was passed on. */
  ghost predicate InnerCalled(t: Search, log: seq<Event>, j: nat) {
    j < |log| && log[j].Called? && PassedOn(t, log[..j], log[j].call)
  }

  ghost function InnerAt(t: Search, log: seq<Event>, j: nat): Error
    requires InnerCalled(t, log, j)
  {
    InnerAnswer(t, log[..j], log[j].call)
  }

  lemma InnerIsAnswerAt(t: Search, acts: seq<Action>, s: State, j: nat)
    requires Wraps(t) && Run(t.cfg, Init(t.cfg), acts, s) && InnerCalled(t, s.log, j) && InnerAt(t, s.log, j) != Nil
    ensures E.AnswerAt(t.cfg, s.log, j) == InnerAt(t, s.log, j)
  {
    CallsWellTyped(t, acts, s, j);
    InnerIsAnswer(t, s.log[..j], s.log[j].call);
  }

  /** If Walk returns nil, the wrapped callback has answered every report it got with nil, and every call for
      a directory with nil or SkipDir; and an answer of it that ends the reading of a directory has been
      reported. */
  lemma InnerErrorsKept(t: Search, root: Item, acts: seq<Action>, s: State, j: nat)
    requires Wraps(t) && Starts(t.cfg, root) && Run(t.cfg, Init(t.cfg), acts, s) && s.coord == Returned(Nil)
    requires InnerCalled(t, s.log, j)
    ensures var c, r := s.log[j].call, InnerAt(t, s.log, j);
            && (c.err != Nil ==> r == Nil)
            && (ForDirectory(t.cfg.root, c) ==> r == Nil || r == SkipDir)
            && (ForEntry(t.cfg.root, c) && EndsReading(c, r) ==> E.ReportedAfter(s.log, j, Parent(c.path), r))
  {
    if InnerAt(t, s.log, j) != Nil {
      InnerIsAnswerAt(t, acts, s, j);
      E.NilMeansNoResult(t.cfg, root, acts, s, j);
      if ForEntry(t.cfg.root, s.log[j].call) && EndsReading(s.log[j].call, InnerAt(t, s.log, j)) {
        E.NilMeansReported(t.cfg, root, acts, s, j);
      }
    }
  }

  /** After the wrapped callback has answered ErrSkipFiles for an entry of the directory `d`, no file in `d`
      is passed to the adapter, nor to it. */
  lemma InnerSkipFilesIsKept(t: Search, acts: seq<Action>, s: State, d: Path, i: nat, j: nat)
    requires Wraps(t) && Run(t.cfg, Init(t.cfg), acts, s) && i < j < |s.log|
    requires CallIn(t.cfg, s.log[i], d) && InnerCalled(t, s.log, i) && InnerAt(t, s.log, i) == SkipFiles
    ensures CallIn(t.cfg, s.log[j], d) ==> s.log[j].call.typ != Regular
  {
    InnerIsAnswerAt(t, acts, s, i);
    W.GraphUniquelyNamed(t.g);
    SkipFilesIsKept(t.cfg, acts, s, d, i, j);
  }
}
