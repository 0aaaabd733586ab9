/** MaxDepth. The depth of an entry is the length of its path below the root, kept in 32 bits; so
    a limit is effective if and only if it fits in 32 bits. */
module Depth {
  import opened Entries
  import opened Protocol
  import opened Ledger
  import opened SequentialWalk
  import opened Termination
  import opened Possible

  predicate Effective(cfg: Config) {
    0 < cfg.maxDepth < DEPTH_MODULUS
  }

  // ----- depth is path length

  ghost predicate DepthOf(cfg: Config, p: Path, depth: nat) {
    && IsPrefix(cfg.root, p)
    && depth == (|p| - |cfg.root|) % DEPTH_MODULUS
    && (Effective(cfg) ==> |p| - |cfg.root| <= cfg.maxDepth)
  }

  ghost predicate GoodItem(cfg: Config, it: Item) {
    DepthOf(cfg, it.dir, it.depth)
  }

  ghost predicate GoodWorker(cfg: Config, w: Worker) {
    match w
    case Entering(it) => GoodItem(cfg, it)
    case Reading(it, _, _) => GoodItem(cfg, it) && !DepthLimited(cfg, it)
    case Enqueueing(it, _, _, pending) => GoodItem(cfg, it) && !DepthLimited(cfg, it) && GoodItem(cfg, pending)
    case Reporting(it, _) => GoodItem(cfg, it)
    case _ => true
  }

  ghost predicate GoodEvent(cfg: Config, e: Event) {
    match e
    case Picked(it) => GoodItem(cfg, it)
    case Called(c) => DepthOf(cfg, c.path, c.depth)
    case Opened(_) => true
  }

  ghost function GoodItems(cfg: Config): Item -> bool {
    (it: Item) => GoodItem(cfg, it)
  }

  ghost function GoodWorkers(cfg: Config): Worker -> bool {
    (w: Worker) => GoodWorker(cfg, w)
  }

  ghost predicate GoodState(cfg: Config, s: State) {
    && Everywhere(s, GoodItems(cfg), GoodWorkers(cfg))
    && (forall e :: e in s.log ==> GoodEvent(cfg, e))
  }

  lemma ChildDepthOf(cfg: Config, it: Item, name: Name)
    requires GoodItem(cfg, it) && !DepthLimited(cfg, it)
    ensures DepthOf(cfg, it.dir + [name], ChildDepth(it.depth))
  {
    assert (it.dir + [name])[..|cfg.root|] == it.dir[..|cfg.root|];
  }

  lemma GoGood(cfg: Config, w: Worker, log: seq<Event>)
    requires Active(w) && GoodWorker(cfg, w)
    ensures var m := Advance(cfg, w, log);
            GoodWorker(cfg, m.next) && forall e :: e in m.events ==> GoodEvent(cfg, e)
  {
    if w.Reading? && w.rest != [] {
      ChildDepthOf(cfg, w.it, w.rest[0].name);
    }
  }

  lemma StepGood(cfg: Config, s: State, a: Action)
    requires Enabled(cfg, s, a) && GoodState(cfg, s)
    ensures GoodState(cfg, Apply(cfg, s, a))
  {
    LogGrows(cfg, s, a);
    if a.Go? {
      assert GoodWorkers(cfg)(s.workers[a.i]);
      GoGood(cfg, s.workers[a.i], s.log);
    } else {
      ChannelKeeps(cfg, s, a, GoodItems(cfg), GoodWorkers(cfg));
      assert a.Take? ==> GoodItems(cfg)(s.workc[0]);
    }
  }

  lemma {:induction false} RunGood(cfg: Config, s: State, acts: seq<Action>, t: State)
    requires GoodState(cfg, s) && Run(cfg, s, acts, t)
    ensures GoodState(cfg, t)
    decreases |acts|
  {
    if acts == [] {
    } else {
      StepGood(cfg, s, acts[0]);
      RunGood(cfg, Apply(cfg, s, acts[0]), acts[1..], t);
    }
  }

  /** Every entry passed to the callback carries the length of its path below the root, modulo
      2^32; under an effective limit that length never exceeds the limit. */
  lemma DepthIsPathLength(cfg: Config, acts: seq<Action>, s: State, c: Call)
    requires Run(cfg, Init(cfg), acts, s) && Called(c) in s.log
    ensures IsPrefix(cfg.root, c.path) && c.depth == (|c.path| - |cfg.root|) % 0x1_0000_0000
    ensures 0 < cfg.maxDepth < 0x1_0000_0000 ==> c.depth == |c.path| - |cfg.root| <= cfg.maxDepth
  {
    RunGood(cfg, Init(cfg), acts, s);
    assert GoodEvent(cfg, Called(c));
  }

  // ----- a limit that does not fit

  lemma GoUnlimited(cfg: Config, w: Worker, log: seq<Event>)
    requires cfg.maxDepth <= 0 || cfg.maxDepth >= DEPTH_MODULUS
    requires Active(w) && GoodWorker(cfg, w)
    ensures Advance(cfg.(maxDepth := 0), w, log) == Advance(cfg, w, log)
  {
    if w.Entering? {
      assert !DepthLimited(cfg, w.it) && !DepthLimited(cfg.(maxDepth := 0), w.it);
    } else if w.Reading? && w.rest != [] {
      var c := EntryCall(w.it, w.rest[0]);
      SameTraversal(cfg, c.path);
    }
  }

  lemma SameTraversal(cfg: Config, path: Path)
    ensures ShouldTraverse(cfg.(maxDepth := 0), path) <==> ShouldTraverse(cfg, path)
  {
  }

  lemma StepUnlimited(cfg: Config, s: State, a: Action)
    requires cfg.maxDepth <= 0 || cfg.maxDepth >= DEPTH_MODULUS
    requires GoodState(cfg, s)
    ensures Enabled(cfg.(maxDepth := 0), s, a) <==> Enabled(cfg, s, a)
    ensures Enabled(cfg, s, a) ==> Apply(cfg.(maxDepth := 0), s, a) == Apply(cfg, s, a)
  {
    if Enabled(cfg, s, a) && a.Go? {
      assert GoodWorkers(cfg)(s.workers[a.i]);
      GoUnlimited(cfg, s.workers[a.i], s.log);
    }
  }

  lemma {:induction false} RunUnlimited(cfg: Config, s: State, acts: seq<Action>, t: State)
    requires cfg.maxDepth <= 0 || cfg.maxDepth >= DEPTH_MODULUS
    requires GoodState(cfg, s)
    ensures Run(cfg, s, acts, t) <==> Run(cfg.(maxDepth := 0), s, acts, t)
    decreases |acts|
  {
    if acts == [] {
    } else {
      StepUnlimited(cfg, s, acts[0]);
      if Enabled(cfg, s, acts[0]) {
        StepGood(cfg, s, acts[0]);
        RunUnlimited(cfg, Apply(cfg, s, acts[0]), acts[1..], t);
      }
    }
  }

  /** A limit of 2^32 or more limits nothing: the runs are those of a walk without a limit. */
  lemma HugeLimitIsNoLimit(cfg: Config, acts: seq<Action>, s: State)
    requires cfg.maxDepth <= 0 || cfg.maxDepth >= DEPTH_MODULUS
    ensures Run(cfg, Init(cfg), acts, s) <==> Run(cfg.(maxDepth := 0), Init(cfg.(maxDepth := 0)), acts, s)
  {
    RunUnlimited(cfg, Init(cfg), acts, s);
  }

  // ----- a limit is kept exactly if it fits

  /** No run of any walk with MaxDepth `m` calls back for an entry more than `m` levels down. */
  ghost predicate LimitHolds(m: int) {
    forall cfg: Config, acts, s, c ::
      cfg.maxDepth == m && Run(cfg, Init(cfg), acts, s) && Called(c) in s.log ==> |c.path| - |cfg.root| <= m
  }

  const SUB: DirEnt := DirEnt([100], Directory)

  /** One worker on directories "d" in directories "d", without end. */
  function Chain(m: int): Config {
    Config(
      FileSystem((p: Path) => Listing([SUB], Nil), (p: Path) => Some(FileInfo(FileKey(0, |p|), Directory))),
      [], false, m, 1, (log: seq<Event>, c: Call) => Nil)
  }

  /** Nothing is left to do but `it`. */
  function Only(it: Item, log: seq<Event>): State {
    State(Selecting, [it], 0, [], [], [], [Idle], log)
  }

  /** The only worker opens the directory... */
  lemma ChainOpens(m: int, it: Item, log: seq<Event>, acts: seq<Action>) returns (acts': seq<Action>, s: State)
    requires m >= DEPTH_MODULUS > it.depth && !it.callbackDone
    requires Run(Chain(m), Init(Chain(m)), acts, Only(it, log))
    ensures Run(Chain(m), Init(Chain(m)), acts', s) && Called(ItemCall(it, Nil)) in s.log
    ensures s == State(Selecting, [], 1, [], [], [], [Reading(it, [SUB], false)], s.log)
  {
    var cfg := Chain(m);
    acts', s := Then(cfg, acts, Only(it, log), Feed);
    acts', s := Then(cfg, acts', s, Take(0));
    acts', s := Then(cfg, acts', s, Go(0));
  }

  /** ... queues the one in it ... */
  lemma ChainQueues(m: int, it: Item, acts: seq<Action>, s0: State) returns (acts': seq<Action>, s: State)
    requires Run(Chain(m), Init(Chain(m)), acts, s0)
    requires s0 == State(Selecting, [], 1, [], [], [], [Reading(it, [SUB], false)], s0.log)
    ensures Run(Chain(m), Init(Chain(m)), acts', s)
    ensures s == State(Selecting, [], 1, [], [ChildItem(it, SUB)], [], [Reading(it, [], false)], s0.log)
  {
    acts', s := Then(Chain(m), acts, s0, Go(0));
    assert [SUB][1..] == [];
    acts', s := Then(Chain(m), acts', s, Push(0));
  }

  /** ... and is done with it. */
  lemma ChainReports(m: int, it: Item, acts: seq<Action>, s0: State) returns (acts': seq<Action>, s: State)
    requires Run(Chain(m), Init(Chain(m)), acts, s0)
    requires s0 == State(Selecting, [], 1, [], s0.enqueuec, [], [Reading(it, [], false)], s0.log)
    ensures Run(Chain(m), Init(Chain(m)), acts', s)
    ensures s == s0.(workers := [Idle], resc := [Nil])
  {
    acts', s := Then(Chain(m), acts, s0, Go(0));
    assert s == s0.(workers := [Sending(Nil)]);
    acts', s := Then(Chain(m), acts', s, Deliver(0));
  }

  /** The coordinator takes the one that was queued before it looks at the result. */
  lemma ChainCollects(m: int, kid: Item, acts: seq<Action>, s0: State) returns (acts': seq<Action>)
    requires Run(Chain(m), Init(Chain(m)), acts, s0)
    requires s0 == State(Selecting, [], 1, [], [kid], [Nil], [Idle], s0.log)
    ensures Run(Chain(m), Init(Chain(m)), acts', Only(kid, s0.log))
  {
    var s;
    acts', s := Then(Chain(m), acts, s0, Collect);
    assert s == Only(kid, s0.log).(out := 1, resc := [Nil]);
    acts', s := Then(Chain(m), acts', s, Receive);
    assert s == Only(kid, s0.log);
  }

  /** With a limit that does not fit, the walk gets to any depth. */
  lemma {:induction false} ChainRun(m: int, n: nat) returns (acts: seq<Action>, log: seq<Event>, it: Item)
    requires m >= DEPTH_MODULUS
    ensures |it.dir| == n && it.depth < DEPTH_MODULUS && !it.callbackDone
    ensures Run(Chain(m), Init(Chain(m)), acts, Only(it, log))
  {
    if n == 0 {
      acts, log, it := [], [], Item([], Directory, 0, false);
      assert Init(Chain(m)) == Only(it, log);
    } else {
      acts, log, it := ChainRun(m, n - 1);
      var s;
      acts, s := ChainOpens(m, it, log, acts);
      acts, s := ChainQueues(m, it, acts, s);
      acts, s := ChainReports(m, it, acts, s);
      acts := ChainCollects(m, ChildItem(it, SUB), acts, s);
      log, it := s.log, ChildItem(it, SUB);
    }
  }

  /** A walk keeps to its limit whatever the file system, the callback and the interleaving, if and
      only if the limit is less than 2^32. */
  lemma LimitHoldsExactly(m: int)
    requires m > 0
    ensures LimitHolds(m) <==> m < 0x1_0000_0000
  {
    if m < DEPTH_MODULUS {
      forall cfg: Config, acts, s, c | cfg.maxDepth == m && Run(cfg, Init(cfg), acts, s) && Called(c) in s.log
        ensures |c.path| - |cfg.root| <= m
      {
        DepthIsPathLength(cfg, acts, s, c);
      }
    } else {
      var acts, log, it := ChainRun(m, m + 1);
      var acts', s := ChainOpens(m, it, log, acts);
      var c := ItemCall(it, Nil);
      assert Chain(m).maxDepth == m && Called(c) in s.log && |c.path| - |Chain(m).root| == m + 1;
    }
  }

  // ----- an effective limit forces termination

  ghost predicate OneLevelDown(cfg: Config, kids: Item -> seq<Item>) {
    forall it, i :: 0 <= i < |kids(it)| ==> kids(it)[i].depth == ChildDepth(it.depth) && !DepthLimited(cfg, it)
  }

  lemma {:induction false} DepthTree(cfg: Config, kids: Item -> seq<Item>, it: Item, k: nat)
    requires Effective(cfg) && OneLevelDown(cfg, kids)
    requires k > 0 && it.depth + k > cfg.maxDepth
    ensures Complete(kids, it, k)
    decreases k
  {
    forall i | 0 <= i < |kids(it)|
      ensures Complete(kids, kids(it)[i], k - 1)
    {
      DepthTree(cfg, kids, kids(it)[i], k - 1);
    }
  }

  /** An effective limit alone makes every run finite: also with links to ancestors that the
      callback asks to traverse. */
  lemma MaxDepthTerminates(cfg: Config, root: Item, acts: seq<Action>, s: State)
    requires Effective(cfg) && Starts(cfg, root) && Run(cfg, Init(cfg), acts, s)
    ensures |acts| <= StepBound(cfg, PossibleKids(cfg, true), root, cfg.maxDepth + 1)
  {
    var kids := PossibleKids(cfg, true);
    forall it, i | 0 <= i < |kids(it)|
      ensures kids(it)[i].depth == ChildDepth(it.depth) && !DepthLimited(cfg, it)
    {
      PossibleFromMember(cfg, true, it, cfg.fs.list(it.dir).entries, kids(it)[i]);
    }
    DepthTree(cfg, kids, root, cfg.maxDepth + 1);
    BoundedTree(cfg, true, root, cfg.maxDepth + 1, acts, s);
  }
}
