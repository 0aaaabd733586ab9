/** A property of paths that the root has, and every entry of a directory that has it, holds of all
    paths of a walk. */
module Paths {
  import opened Entries
  import opened Protocol
  import opened Ledger

  type PathProperty = Path -> bool

  ghost predicate Inherited(cfg: Config, holds: PathProperty) {
    && holds(cfg.root)
    && forall dir, e :: holds(dir) && e in cfg.fs.list(dir).entries ==> holds(dir + [e.name])
  }

  ghost predicate EntriesOf(cfg: Config, dir: Path, rest: seq<DirEnt>) {
    forall e :: e in rest ==> e in cfg.fs.list(dir).entries
  }

  ghost predicate GoodWorker(cfg: Config, holds: PathProperty, w: Worker) {
    match w
    case Entering(it) => holds(it.dir)
    case Reading(it, rest, _) => holds(it.dir) && EntriesOf(cfg, it.dir, rest)
    case Enqueueing(it, rest, _, pending) => holds(it.dir) && EntriesOf(cfg, it.dir, rest) && holds(pending.dir)
    case Reporting(it, _) => holds(it.dir)
    case _ => true
  }

  ghost predicate GoodEvent(holds: PathProperty, e: Event) {
    match e
    case Picked(it) => holds(it.dir)
    case Called(c) => holds(c.path)
    case Opened(p) => holds(p)
  }

  ghost function GoodItems(holds: PathProperty): Item -> bool {
    (it: Item) => holds(it.dir)
  }

  ghost function GoodWorkers(cfg: Config, holds: PathProperty): Worker -> bool {
    (w: Worker) => GoodWorker(cfg, holds, w)
  }

  ghost predicate GoodState(cfg: Config, holds: PathProperty, s: State) {
    && Everywhere(s, GoodItems(holds), GoodWorkers(cfg, holds))
    && (forall e :: e in s.log ==> GoodEvent(holds, e))
  }

  lemma GoGood(cfg: Config, holds: PathProperty, w: Worker, log: seq<Event>)
    requires Inherited(cfg, holds) && Active(w) && GoodWorker(cfg, holds, w)
    ensures var m := Advance(cfg, w, log);
            GoodWorker(cfg, holds, m.next) && forall e :: e in m.events ==> GoodEvent(holds, e)
  {
    if w.Reading? && w.rest != [] {
      assert w.rest[0] in w.rest && holds(w.it.dir + [w.rest[0].name]);
    }
  }

  lemma StepGood(cfg: Config, holds: PathProperty, s: State, a: Action)
    requires Inherited(cfg, holds) && Enabled(cfg, s, a) && GoodState(cfg, holds, s)
    ensures GoodState(cfg, holds, Apply(cfg, s, a))
  {
    LogGrows(cfg, s, a);
    if a.Go? {
      assert GoodWorkers(cfg, holds)(s.workers[a.i]);
      GoGood(cfg, holds, s.workers[a.i], s.log);
    } else {
      ChannelKeeps(cfg, s, a, GoodItems(holds), GoodWorkers(cfg, holds));
      assert a.Take? ==> GoodItems(holds)(s.workc[0]);
    }
  }

  lemma {:induction false} RunGood(cfg: Config, holds: PathProperty, s: State, acts: seq<Action>, t: State)
    requires Inherited(cfg, holds) && GoodState(cfg, holds, s) && Run(cfg, s, acts, t)
    ensures GoodState(cfg, holds, t)
    decreases |acts|
  {
    if acts == [] {
    } else {
      StepGood(cfg, holds, s, acts[0]);
      RunGood(cfg, holds, Apply(cfg, s, acts[0]), acts[1..], t);
    }
  }

  lemma EveryCall(cfg: Config, holds: PathProperty, acts: seq<Action>, s: State, c: Call)
    requires Inherited(cfg, holds) && Run(cfg, Init(cfg), acts, s) && Called(c) in s.log
    ensures holds(c.path)
  {
    RunGood(cfg, holds, Init(cfg), acts, s);
    assert GoodEvent(holds, Called(c));
  }

  lemma EveryOpening(cfg: Config, holds: PathProperty, acts: seq<Action>, s: State, p: Path)
    requires Inherited(cfg, holds) && Run(cfg, Init(cfg), acts, s) && Opened(p) in s.log
    ensures holds(p)
  {
    RunGood(cfg, holds, Init(cfg), acts, s);
    assert GoodEvent(holds, Opened(p));
  }

  /** What is called or opened is the root or below it. */
  lemma BelowRoot(cfg: Config, acts: seq<Action>, s: State, p: Path)
    requires Run(cfg, Init(cfg), acts, s)
    requires Opened(p) in s.log || exists c :: Called(c) in s.log && c.path == p
    ensures IsPrefix(cfg.root, p)
  {
    var holds := (p: Path) => IsPrefix(cfg.root, p);
    forall dir, e | holds(dir) && e in cfg.fs.list(dir).entries
      ensures holds(dir + [e.name])
    {
      assert (dir + [e.name])[..|cfg.root|] == dir[..|cfg.root|];
    }
    if Opened(p) in s.log {
      EveryOpening(cfg, holds, acts, s, p);
    } else {
      var c :| Called(c) in s.log && c.path == p;
      EveryCall(cfg, holds, acts, s, c);
    }
  }
}
