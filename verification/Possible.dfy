/** The items a walk may enqueue whatever the callback answers, and what a bound on their tree
    gives: every run is finite and every path in it is short. */
module Possible {
  import opened Entries
  import opened Protocol
  import opened Ledger
  import opened SequentialWalk
  import opened Termination

  ghost predicate NeverTraverses(cfg: Config) {
    forall log, c :: cfg.fn(log, c) != TraverseLink
  }

  /** `links` says that the callback may return ErrTraverseLink. */
  ghost predicate MayEnqueue(cfg: Config, links: bool, it: Item, e: DirEnt) {
    || e.typ == Directory
    || (e.typ == Symlink && if cfg.follow then ShouldTraverse(cfg, it.dir + [e.name]) else links)
  }

  ghost function PossibleFrom(cfg: Config, links: bool, it: Item, rest: seq<DirEnt>): seq<Item> {
    if rest == [] then []
    else
      (if MayEnqueue(cfg, links, it, rest[0]) then [ChildItem(it, rest[0])] else [])
      + PossibleFrom(cfg, links, it, rest[1..])
  }

  ghost function PossibleKids(cfg: Config, links: bool): Item -> seq<Item> {
    (it: Item) =>
      if DepthLimited(cfg, it) then []
      else PossibleFrom(cfg, links, it, cfg.fs.list(it.dir).entries)
  }

  ghost function ComingTo(cfg: Config, links: bool, w: Worker): seq<Item> {
    match w
    case Entering(it) => PossibleKids(cfg, links)(it)
    case Reading(it, rest, _) => PossibleFrom(cfg, links, it, rest)
    case Enqueueing(it, rest, _, pending) => [pending] + PossibleFrom(cfg, links, it, rest)
    case _ => []
  }

  ghost function PossibleComing(cfg: Config, links: bool): Worker -> seq<Item> {
    (w: Worker) => ComingTo(cfg, links, w)
  }

  lemma PossibleCovers(cfg: Config, links: bool)
    requires links || cfg.follow || NeverTraverses(cfg)
    ensures Covers(cfg, PossibleKids(cfg, links), PossibleComing(cfg, links))
  {
    forall w, log | Active(w)
      ensures IsSuffix(PossibleComing(cfg, links)(Advance(cfg, w, log).next), PossibleComing(cfg, links)(w))
    {
      AdvanceCovered(cfg, links, w, log);
    }
  }

  /** What the loop of readDir makes of one entry. */
  lemma EntryStep(cfg: Config, links: bool, w: Worker, log: seq<Event>)
    requires w.Reading? && w.rest != [] && (links || cfg.follow || NeverTraverses(cfg))
    ensures var next := Advance(cfg, w, log).next;
            || next.Reporting?
            || (next.Reading? && next.it == w.it && next.rest == w.rest[1..])
            || (next.Enqueueing? && next.it == w.it && next.rest == w.rest[1..]
                && next.pending == ChildItem(w.it, w.rest[0]) && MayEnqueue(cfg, links, w.it, w.rest[0]))
  {
  }

  lemma EnterStep(cfg: Config, links: bool, it: Item, log: seq<Event>)
    ensures var next := Advance(cfg, Entering(it), log).next;
            next.Sending? || (next.Reading? && ComingTo(cfg, links, next) == PossibleKids(cfg, links)(it))
  {
  }

  lemma FirstPossible(cfg: Config, links: bool, it: Item, rest: seq<DirEnt>)
    requires rest != []
    ensures IsSuffix(PossibleFrom(cfg, links, it, rest[1..]), PossibleFrom(cfg, links, it, rest))
    ensures MayEnqueue(cfg, links, it, rest[0]) ==>
              PossibleFrom(cfg, links, it, rest) == [ChildItem(it, rest[0])] + PossibleFrom(cfg, links, it, rest[1..])
  {
  }

  lemma AdvanceCovered(cfg: Config, links: bool, w: Worker, log: seq<Event>)
    requires Active(w) && (links || cfg.follow || NeverTraverses(cfg))
    ensures IsSuffix(ComingTo(cfg, links, Advance(cfg, w, log).next), ComingTo(cfg, links, w))
  {
    if w.Entering? {
      EnterStep(cfg, links, w.it, log);
    } else if w.Reporting? || w.rest == [] {
      EndMoves(cfg, w, log);
    } else {
      EntryCovered(cfg, links, w, log);
    }
  }

  lemma EntryCovered(cfg: Config, links: bool, w: Worker, log: seq<Event>)
    requires w.Reading? && w.rest != [] && (links || cfg.follow || NeverTraverses(cfg))
    ensures IsSuffix(ComingTo(cfg, links, Advance(cfg, w, log).next), ComingTo(cfg, links, w))
  {
    EntryStep(cfg, links, w, log);
    FirstPossible(cfg, links, w.it, w.rest);
    Suffixes(ComingTo(cfg, links, w));
  }

  lemma {:induction false} PossibleFromMember(cfg: Config, links: bool, it: Item, rest: seq<DirEnt>, x: Item)
    requires x in PossibleFrom(cfg, links, it, rest)
    ensures exists e :: e in rest && MayEnqueue(cfg, links, it, e) && x == ChildItem(it, e)
  {
    if !MayEnqueue(cfg, links, it, rest[0]) || x != ChildItem(it, rest[0]) {
      PossibleFromMember(cfg, links, it, rest[1..], x);
    }
  }

  // ----- paths

  /** An item whose path, and every path below it, is shorter than `n`. */
  ghost function NotShort(kids: Item -> seq<Item>, n: nat): Item -> nat {
    (it: Item) => if |it.dir| < n && Complete(kids, it, n - |it.dir|) then 0 else 1
  }

  ghost function WorkerNotShort(kids: Item -> seq<Item>, coming: Worker -> seq<Item>, n: nat): Worker -> nat {
    (w: Worker) => Sum(coming(w), NotShort(kids, n))
  }

  ghost function LongPick(n: nat): Event -> nat {
    (e: Event) => if e.Picked? && |e.item.dir| >= n then 1 else 0
  }

  ghost predicate AllShort(kids: Item -> seq<Item>, coming: Worker -> seq<Item>, n: nat, s: State) {
    Total(s, NotShort(kids, n), WorkerNotShort(kids, coming, n)) == 0 && Sum(s.log, LongPick(n)) == 0
  }

  /** Each child's path has one name more. */
  ghost predicate OneNameMore(kids: Item -> seq<Item>) {
    forall it, i :: 0 <= i < |kids(it)| ==> |kids(it)[i].dir| == |it.dir| + 1
  }

  lemma KidsShort(kids: Item -> seq<Item>, it: Item, n: nat)
    requires OneNameMore(kids) && NotShort(kids, n)(it) == 0
    ensures Sum(kids(it), NotShort(kids, n)) == 0
  {
    forall i | 0 <= i < |kids(it)|
      ensures NotShort(kids, n)(kids(it)[i]) == 0
    {
      assert Complete(kids, kids(it)[i], n - |it.dir| - 1);
    }
    SumZero(kids(it), NotShort(kids, n));
  }

  lemma SpendsShort(cfg: Config, kids: Item -> seq<Item>, coming: Worker -> seq<Item>, n: nat, s: State, a: Action)
    requires Covers(cfg, kids, coming) && OneNameMore(kids) && Enabled(cfg, s, a) && AllShort(kids, coming, n, s)
    ensures Spent(cfg, s, a, NotShort(kids, n), WorkerNotShort(kids, coming, n)) >= 0
    ensures Sum(NewEvents(cfg, s, a), LongPick(n)) == 0
  {
    match a {
      case Take(i) =>
        SumAtLeast(s.workc, 0, NotShort(kids, n));
        KidsShort(kids, s.workc[0], n);
        SumZero(NewEvents(cfg, s, a), LongPick(n));
      case Go(i) =>
        var next := Advance(cfg, s.workers[i], s.log).next;
        SuffixSum(coming(next), coming(s.workers[i]), NotShort(kids, n));
        AdvanceEvents(cfg, s.workers[i], s.log);
        SumZero(NewEvents(cfg, s, a), LongPick(n));
      case Push(i) => PushShort(cfg, kids, coming, s.workers[i], n);
      case Drop(i) => PushShort(cfg, kids, coming, s.workers[i], n);
      case _ =>
    }
  }

  lemma StepShort(cfg: Config, kids: Item -> seq<Item>, coming: Worker -> seq<Item>, n: nat, s: State, a: Action)
    requires Covers(cfg, kids, coming) && OneNameMore(kids) && Enabled(cfg, s, a) && AllShort(kids, coming, n, s)
    ensures AllShort(kids, coming, n, Apply(cfg, s, a))
  {
    TotalStep(cfg, s, a, NotShort(kids, n), WorkerNotShort(kids, coming, n));
    SpendsShort(cfg, kids, coming, n, s, a);
    LogShort(cfg, s, a, n);
  }

  lemma LogShort(cfg: Config, s: State, a: Action, n: nat)
    requires Enabled(cfg, s, a) && Sum(s.log, LongPick(n)) == 0 && Sum(NewEvents(cfg, s, a), LongPick(n)) == 0
    ensures Sum(Apply(cfg, s, a).log, LongPick(n)) == 0
  {
    LogGrows(cfg, s, a);
    SumAppend(s.log, NewEvents(cfg, s, a), LongPick(n));
  }

  lemma PushShort(cfg: Config, kids: Item -> seq<Item>, coming: Worker -> seq<Item>, w: Worker, n: nat)
    requires Covers(cfg, kids, coming) && w.Enqueueing?
    ensures WorkerNotShort(kids, coming, n)(w)
         == WorkerNotShort(kids, coming, n)(Reading(w.it, w.rest, w.skipFiles)) + NotShort(kids, n)(w.pending)
  {
    var later := coming(Reading(w.it, w.rest, w.skipFiles));
    assert ([w.pending] + later)[1..] == later;
  }

  lemma {:induction false} RunShort(cfg: Config, kids: Item -> seq<Item>, coming: Worker -> seq<Item>, n: nat,
                                    s: State, acts: seq<Action>, t: State)
    requires Covers(cfg, kids, coming) && OneNameMore(kids) && AllShort(kids, coming, n, s) && Run(cfg, s, acts, t)
    ensures AllShort(kids, coming, n, t)
    decreases |acts|
  {
    if acts == [] {
    } else {
      StepShort(cfg, kids, coming, n, s, acts[0]);
      RunShort(cfg, kids, coming, n, Apply(cfg, s, acts[0]), acts[1..], t);
    }
  }

  lemma PossibleOneNameMore(cfg: Config, links: bool)
    ensures OneNameMore(PossibleKids(cfg, links))
  {
    forall it, i | 0 <= i < |PossibleKids(cfg, links)(it)|
      ensures |PossibleKids(cfg, links)(it)[i].dir| == |it.dir| + 1
    {
      PossibleFromMember(cfg, links, it, cfg.fs.list(it.dir).entries, PossibleKids(cfg, links)(it)[i]);
    }
  }

  /** If the tree of possible items is at most `k` deep, then under any callback every run is
      finite, and no item picked up lies `k` or more names below the root. */
  lemma BoundedTree(cfg: Config, links: bool, root: Item, k: nat, acts: seq<Action>, s: State)
    requires Starts(cfg, root) && (links || cfg.follow || NeverTraverses(cfg))
    requires Complete(PossibleKids(cfg, links), root, k) && Run(cfg, Init(cfg), acts, s)
    ensures |acts| <= StepBound(cfg, PossibleKids(cfg, links), root, k)
    ensures forall it :: Picked(it) in s.log ==> |it.dir| < |cfg.root| + k
  {
    var kids, coming := PossibleKids(cfg, links), PossibleComing(cfg, links);
    PossibleCovers(cfg, links);
    RunIsBounded(cfg, kids, coming, root, k, acts, s);
    PossibleOneNameMore(cfg, links);
    var n := |cfg.root| + k;
    var s0 := Init(cfg);
    assert s0.todo == [] + [root];
    SumLast([], root, NotShort(kids, n));
    SumZero(s0.workers, WorkerNotShort(kids, coming, n));
    RunShort(cfg, kids, coming, n, s0, acts, s);
    forall it | Picked(it) in s.log
      ensures |it.dir| < n
    {
      var i :| 0 <= i < |s.log| && s.log[i] == Picked(it);
      SumAtLeast(s.log, i, LongPick(n));
    }
  }
}
