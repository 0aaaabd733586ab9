/** The caches of Info and Stat in a directory entry: a cell is published by compare-and-swap and
    filled once, whichever goroutines call, and however they are interleaved. */
module StatCache {
  import opened Entries
  import opened Ledger

  datatype Request = Info | Stat

  /** What Lstat or Stat reports: it may be another result each time. */
  type Answer = nat

  /** Stat of an entry that is no link is Info. */
  function SlotOf(typ: FileType, r: Request): nat {
    if r == Stat && typ == Symlink then 1 else 0
  }

  // ----- one goroutine

  /** A cell, with its result once `once` has run. */
  class FileInfoCell {
    var result: Option<Answer>

    constructor (result: Option<Answer>)
      ensures this.result == result
    {
      this.result := result;
    }

    /** once.Do with the system call, which would report `os` now. */
    method Do(os: Answer) returns (called: bool)
      modifies this
      ensures called == old(result).None?
      ensures result == Some(if called then os else old(result).value)
    {
      called := result.None?;
      if called {
        result := Some(os);
      }
    }
  }

  class UnixDirent {
    const typ: FileType
    var info: FileInfoCell?
    var stat: FileInfoCell?
    var lstats: nat  // system calls made
    var stats: nat

    ghost predicate Valid()
      reads this
    {
      info != null ==> info != stat
    }

    ghost function Cached(r: Request): Option<Answer>
      reads this, info, stat
    {
      var cell := if SlotOf(typ, r) == 0 then info else stat;
      if cell == null then None else cell.result
    }

    ghost function Calls(): nat
      reads this
    {
      lstats + stats
    }

    /** `known` is what fileInfoToDirEntry starts the entry of the root with. */
    constructor (typ: FileType, known: Option<Answer>)
      ensures Valid() && Calls() == 0 && this.typ == typ && Cached(Info) == known
      ensures typ == Symlink ==> Cached(Stat) == None
      ensures (info != null ==> fresh(info)) && stat == null
    {
      this.typ := typ;
      lstats, stats, stat := 0, 0, null;
      if known.Some? {
        info := new FileInfoCell(known);
      } else {
        info := null;
      }
    }

    /** Lstat is called unless its result, or what the entry started with, is there. */
    method GetInfo(os: Answer) returns (a: Answer)
      requires Valid()
      modifies this`info, this`lstats, info
      ensures Valid() && (old(info) == null ==> fresh(info)) && (old(info) != null ==> info == old(info))
      ensures a == if old(Cached(Info)).Some? then old(Cached(Info)).value else os
      ensures Cached(Info) == Some(a)
      ensures typ == Symlink ==> Cached(Stat) == old(Cached(Stat))
      ensures Calls() == old(Calls()) + if old(Cached(Info)).Some? then 0 else 1
    {
      if info == null {
        info := new FileInfoCell(None);
      }
      var called := info.Do(os);
      if called {
        lstats := lstats + 1;
      }
      return info.result.value;
    }

    /** Stat of an entry that is no link is Info; of a link it has a cell of its own. */
    method GetStat(os: Answer) returns (a: Answer)
      requires Valid()
      modifies this, info, stat
      ensures Valid()
      ensures a == if old(Cached(Stat)).Some? then old(Cached(Stat)).value else os
      ensures Cached(Stat) == Some(a)
      ensures Cached(Info) == if typ == Symlink then old(Cached(Info)) else Some(a)
      ensures Calls() == old(Calls()) + if old(Cached(Stat)).Some? then 0 else 1
      ensures if typ == Symlink then lstats == old(lstats) else stats == old(stats)
    {
      if typ != Symlink {
        a := GetInfo(os);
        return;
      }
      if stat == null {
        stat := new FileInfoCell(None);
      }
      var called := stat.Do(os);
      if called {
        stats := stats + 1;
      }
      return stat.result.value;
    }
  }

  // ----- many goroutines

  datatype Cell = Fresh | Running | Ready(answer: Answer)

  /** A goroutine inside Info or Stat of the one entry. */
  datatype Caller =
    | Loading(slot: nat)                       // before the first LoadPointer
    | Allocating(slot: nat)                    // has loaded nil
    | Swapping(slot: nat, cell: nat)           // before CompareAndSwapPointer
    | Reloading(slot: nat)                     // has lost the swap
    | Entering(slot: nat, cell: nat)           // before once.Do
    | Statting(slot: nat, cell: nat)           // inside once.Do
    | Finished(slot: nat, cell: nat, answer: Answer)

  /** Slot 0 is the `info` pointer, slot 1 the `stat` pointer; `stats` counts, for each slot, the
      system calls made for it. */
  datatype Cache = Cache(slots: seq<Option<nat>>, cells: seq<Cell>, callers: seq<Caller>, stats: seq<nat>)

  /** `known` is the answer that the entry of the root starts with. */
  function Start(typ: FileType, known: Option<Answer>, requests: seq<Request>): Cache {
    Cache(
      [if known.Some? then Some(0) else None, None],
      if known.Some? then [Ready(known.value)] else [],
      seq(|requests|, i requires 0 <= i < |requests| => Loading(SlotOf(typ, requests[i]))),
      [0, 0])
  }

  ghost predicate WellFormed(s: Cache) {
    && |s.slots| == |s.stats| == 2
    && (forall j :: 0 <= j < 2 && s.slots[j].Some? ==> s.slots[j].value < |s.cells|)
    && (forall i :: 0 <= i < |s.callers| ==> s.callers[i].slot < 2)
    && (forall i :: 0 <= i < |s.callers| ==>
          match s.callers[i]
          case Swapping(_, c) => c < |s.cells|
          case Reloading(j) => s.slots[j].Some?
          case Entering(j, c) => s.slots[j] == Some(c)
          case Statting(j, c) => s.slots[j] == Some(c)
          case Finished(j, c, _) => s.slots[j] == Some(c)
          case _ => true)
  }

  ghost predicate CanStep(s: Cache, i: nat)
    requires WellFormed(s)
  {
    i < |s.callers| &&
    match s.callers[i]
    case Entering(_, c) => !s.cells[c].Running?  // once.Do waits for the one that runs
    case Finished(_, _, _) => false
    case _ => true
  }

  /** The next step of caller `i`; `os` is what the system call would report at this moment. */
  ghost function StepOf(s: Cache, i: nat, os: Answer): Cache
    requires WellFormed(s) && CanStep(s, i)
  {
    match s.callers[i]
    case Loading(j) =>
      s.(callers := s.callers[i := if s.slots[j].Some? then Entering(j, s.slots[j].value) else Allocating(j)])
    case Allocating(j) =>
      s.(cells := s.cells + [Fresh], callers := s.callers[i := Swapping(j, |s.cells|)])
    case Swapping(j, c) =>
      if s.slots[j].None? then s.(slots := s.slots[j := Some(c)], callers := s.callers[i := Entering(j, c)])
      else s.(callers := s.callers[i := Reloading(j)])
    case Reloading(j) => s.(callers := s.callers[i := Entering(j, s.slots[j].value)])
    case Entering(j, c) =>
      if s.cells[c].Ready? then s.(callers := s.callers[i := Finished(j, c, s.cells[c].answer)])
      else s.(cells := s.cells[c := Running], callers := s.callers[i := Statting(j, c)])
    case Statting(j, c) =>
      s.(cells := s.cells[c := Ready(os)], stats := s.stats[j := s.stats[j] + 1],
         callers := s.callers[i := Finished(j, c, os)])
  }

  /** A schedule: who steps, and what the system would report to it. */
  ghost predicate Steps(s: Cache, sched: seq<(nat, Answer)>, s': Cache)
    decreases |sched|
  {
    if sched == [] then s' == s
    else
      WellFormed(s) && CanStep(s, sched[0].0) && Steps(StepOf(s, sched[0].0, sched[0].1), sched[1..], s')
  }

  // ----- the invariant

  ghost function RunsIn(j: nat): Caller -> nat {
    (c: Caller) => if c.Statting? && c.slot == j then 1 else 0
  }

  /** The published cell of a slot is fresh, or one caller is filling it, or it holds the answer of
      the only system call there was (`preset`: or of none, if it started filled). */
  ghost predicate SlotInv(s: Cache, j: nat, preset: bool)
    requires WellFormed(s) && j < 2
  {
    match s.slots[j]
    case None => s.stats[j] == 0 && Sum(s.callers, RunsIn(j)) == 0
    case Some(c) =>
      match s.cells[c]
      case Fresh => s.stats[j] == 0 && Sum(s.callers, RunsIn(j)) == 0
      case Running => s.stats[j] == 0 && Sum(s.callers, RunsIn(j)) == 1
      case Ready(_) => s.stats[j] == (if preset then 0 else 1) && Sum(s.callers, RunsIn(j)) == 0
  }

  /** A cell that is being offered is fresh, nobody else's, and not published. */
  ghost predicate OffersInv(s: Cache)
    requires WellFormed(s)
  {
    && (forall i :: 0 <= i < |s.callers| && s.callers[i].Swapping? ==>
          && s.cells[s.callers[i].cell] == Fresh
          && s.slots[0] != Some(s.callers[i].cell) && s.slots[1] != Some(s.callers[i].cell))
    && (forall i, k :: 0 <= i < k < |s.callers| && s.callers[i].Swapping? && s.callers[k].Swapping? ==>
          s.callers[i].cell != s.callers[k].cell)
  }

  /** Who fills a cell is alone with it, and who has finished has the answer in it. */
  ghost predicate CallersInv(s: Cache)
    requires WellFormed(s)
  {
    && (s.slots[0].Some? && s.slots[1].Some? ==> s.slots[0] != s.slots[1])
    && (forall i :: 0 <= i < |s.callers| && s.callers[i].Statting? ==> s.cells[s.callers[i].cell] == Running)
    && (forall i, k :: 0 <= i < k < |s.callers| && s.callers[i].Statting? && s.callers[k].Statting? ==>
          s.callers[i].cell != s.callers[k].cell)
    && (forall i :: 0 <= i < |s.callers| && s.callers[i].Finished? ==>
          s.cells[s.callers[i].cell] == Ready(s.callers[i].answer))
  }

  ghost predicate Inv(s: Cache, preset: bool) {
    && WellFormed(s)
    && OffersInv(s)
    && CallersInv(s)
    && SlotReady(s, 0, preset) && SlotReady(s, 1, false)
  }

  lemma StartInv(typ: FileType, known: Option<Answer>, requests: seq<Request>)
    ensures Inv(Start(typ, known, requests), known.Some?)
  {
    var s := Start(typ, known, requests);
    SumZero(s.callers, RunsIn(0));
    SumZero(s.callers, RunsIn(1));
  }

  lemma AllocatingOffers(s: Cache, i: nat, os: Answer)
    requires WellFormed(s) && OffersInv(s) && CanStep(s, i) && s.callers[i].Allocating?
    ensures WellFormed(StepOf(s, i, os)) && OffersInv(StepOf(s, i, os))
  {
  }

  lemma SwappingOffers(s: Cache, i: nat, os: Answer)
    requires WellFormed(s) && OffersInv(s) && CanStep(s, i) && s.callers[i].Swapping?
    ensures WellFormed(StepOf(s, i, os)) && OffersInv(StepOf(s, i, os))
  {
  }

  lemma FillingOffers(s: Cache, i: nat, os: Answer)
    requires WellFormed(s) && OffersInv(s) && CallersInv(s) && CanStep(s, i)
    requires s.callers[i].Entering? || s.callers[i].Statting?
    ensures WellFormed(StepOf(s, i, os)) && OffersInv(StepOf(s, i, os))
  {
  }

  lemma LoadingOffers(s: Cache, i: nat, os: Answer)
    requires WellFormed(s) && OffersInv(s) && CanStep(s, i) && (s.callers[i].Loading? || s.callers[i].Reloading?)
    ensures WellFormed(StepOf(s, i, os)) && OffersInv(StepOf(s, i, os))
  {
  }

  lemma StepOffers(s: Cache, i: nat, os: Answer)
    requires WellFormed(s) && OffersInv(s) && CallersInv(s) && CanStep(s, i)
    ensures WellFormed(StepOf(s, i, os)) && OffersInv(StepOf(s, i, os))
  {
    match s.callers[i] {
      case Allocating(_) => AllocatingOffers(s, i, os);
      case Swapping(_, _) => SwappingOffers(s, i, os);
      case Loading(_) => LoadingOffers(s, i, os);
      case Reloading(_) => LoadingOffers(s, i, os);
      case _ => FillingOffers(s, i, os);
    }
  }

  lemma PublishKeepsCallers(s: Cache, i: nat, os: Answer)
    requires WellFormed(s) && OffersInv(s) && CallersInv(s) && CanStep(s, i)
    requires !s.callers[i].Entering? && !s.callers[i].Statting?
    ensures WellFormed(StepOf(s, i, os)) && CallersInv(StepOf(s, i, os))
  {
  }

  lemma EnterKeepsCallers(s: Cache, i: nat, os: Answer)
    requires WellFormed(s) && OffersInv(s) && CallersInv(s) && CanStep(s, i) && s.callers[i].Entering?
    ensures WellFormed(StepOf(s, i, os)) && CallersInv(StepOf(s, i, os))
  {
  }

  lemma FillKeepsCallers(s: Cache, i: nat, os: Answer)
    requires WellFormed(s) && OffersInv(s) && CallersInv(s) && CanStep(s, i) && s.callers[i].Statting?
    ensures WellFormed(StepOf(s, i, os)) && CallersInv(StepOf(s, i, os))
  {
  }

  lemma StepCallers(s: Cache, i: nat, os: Answer)
    requires WellFormed(s) && OffersInv(s) && CallersInv(s) && CanStep(s, i)
    ensures WellFormed(StepOf(s, i, os)) && CallersInv(StepOf(s, i, os))
  {
    if s.callers[i].Entering? {
      EnterKeepsCallers(s, i, os);
    } else if s.callers[i].Statting? {
      FillKeepsCallers(s, i, os);
    } else {
      PublishKeepsCallers(s, i, os);
    }
  }

  ghost predicate SlotReady(s: Cache, j: nat, preset: bool)
    requires WellFormed(s) && j < 2
  {
    SlotInv(s, j, preset) && (preset ==> s.slots[j].Some? && s.cells[s.slots[j].value].Ready?)
  }

  /** A step for the other slot changes nothing here. */
  lemma OtherPublishing(s: Cache, i: nat, os: Answer, preset: bool, j: nat)
    requires WellFormed(s) && OffersInv(s) && CallersInv(s) && CanStep(s, i)
    requires j < 2 && SlotReady(s, j, preset) && s.callers[i].slot != j
    requires !s.callers[i].Entering? && !s.callers[i].Statting?
    ensures WellFormed(StepOf(s, i, os)) && SlotReady(StepOf(s, i, os), j, preset)
  {
    StepCallers(s, i, os);
    SumUpdate(s.callers, i, StepOf(s, i, os).callers[i], RunsIn(j));
  }

  lemma OtherFilling(s: Cache, i: nat, os: Answer, preset: bool, j: nat)
    requires WellFormed(s) && OffersInv(s) && CallersInv(s) && CanStep(s, i)
    requires j < 2 && SlotReady(s, j, preset) && s.callers[i].slot != j
    requires s.callers[i].Entering? || s.callers[i].Statting?
    ensures WellFormed(StepOf(s, i, os)) && SlotReady(StepOf(s, i, os), j, preset)
  {
    StepCallers(s, i, os);
    SumUpdate(s.callers, i, StepOf(s, i, os).callers[i], RunsIn(j));
  }

  lemma Publishing(s: Cache, i: nat, os: Answer, preset: bool, j: nat)
    requires WellFormed(s) && OffersInv(s) && CallersInv(s) && CanStep(s, i)
    requires j < 2 && SlotReady(s, j, preset) && s.callers[i].slot == j
    requires !s.callers[i].Entering? && !s.callers[i].Statting?
    ensures WellFormed(StepOf(s, i, os)) && SlotReady(StepOf(s, i, os), j, preset)
  {
    StepCallers(s, i, os);
    SumUpdate(s.callers, i, StepOf(s, i, os).callers[i], RunsIn(j));
  }

  lemma Filling(s: Cache, i: nat, os: Answer, preset: bool, j: nat)
    requires WellFormed(s) && OffersInv(s) && CallersInv(s) && CanStep(s, i)
    requires j < 2 && SlotReady(s, j, preset) && s.callers[i].slot == j
    requires s.callers[i].Entering? || s.callers[i].Statting?
    ensures WellFormed(StepOf(s, i, os)) && SlotReady(StepOf(s, i, os), j, preset)
  {
    StepCallers(s, i, os);
    SumUpdate(s.callers, i, StepOf(s, i, os).callers[i], RunsIn(j));
    SumAtLeast(s.callers, i, RunsIn(j));
  }

  lemma StepSlot(s: Cache, i: nat, os: Answer, preset: bool, j: nat)
    requires WellFormed(s) && OffersInv(s) && CallersInv(s) && CanStep(s, i)
    requires j < 2 && SlotReady(s, j, preset)
    ensures WellFormed(StepOf(s, i, os)) && SlotReady(StepOf(s, i, os), j, preset)
  {
    var fills := s.callers[i].Entering? || s.callers[i].Statting?;
    if s.callers[i].slot == j {
      if fills {
        Filling(s, i, os, preset, j);
      } else {
        Publishing(s, i, os, preset, j);
      }
    } else if fills {
      OtherFilling(s, i, os, preset, j);
    } else {
      OtherPublishing(s, i, os, preset, j);
    }
  }

  lemma StepInv(s: Cache, i: nat, os: Answer, preset: bool)
    requires Inv(s, preset) && CanStep(s, i)
    ensures Inv(StepOf(s, i, os), preset)
  {
    StepOffers(s, i, os);
    StepCallers(s, i, os);
    StepSlot(s, i, os, preset, 0);
    StepSlot(s, i, os, false, 1);
  }

  lemma {:induction false} StepsInv(s: Cache, sched: seq<(nat, Answer)>, s': Cache, preset: bool)
    requires Inv(s, preset) && Steps(s, sched, s')
    ensures Inv(s', preset)
    decreases |sched|
  {
    if sched == [] {
    } else {
      StepInv(s, sched[0].0, sched[0].1, preset);
      StepsInv(StepOf(s, sched[0].0, sched[0].1), sched[1..], s', preset);
    }
  }

  ghost predicate SameSlots(s: Cache, s': Cache) {
    |s'.callers| == |s.callers| && forall i :: 0 <= i < |s.callers| ==> s'.callers[i].slot == s.callers[i].slot
  }

  lemma {:induction false} StepsKeepSlots(s: Cache, sched: seq<(nat, Answer)>, s': Cache)
    requires Steps(s, sched, s')
    ensures SameSlots(s, s')
    decreases |sched|
  {
    if sched == [] {
    } else {
      StepKeepsSlots(s, sched[0].0, sched[0].1);
      StepsKeepSlots(StepOf(s, sched[0].0, sched[0].1), sched[1..], s');
    }
  }

  lemma StepKeepsSlots(s: Cache, i: nat, os: Answer)
    requires WellFormed(s) && CanStep(s, i)
    ensures SameSlots(s, StepOf(s, i, os))
  {
  }

  // ----- the guarantees

  /** In every interleaving of any calls of Info and Stat on one entry, at most one system call is
      made for each slot, and none for the info of the root. */
  lemma StatsAtMostOnce(typ: FileType, known: Option<Answer>, requests: seq<Request>, sched: seq<(nat, Answer)>,
                        s: Cache)
    requires Steps(Start(typ, known, requests), sched, s)
    ensures |s.stats| == 2 && s.stats[0] <= 1 && s.stats[1] <= 1
    ensures known.Some? ==> s.stats[0] == 0
  {
    StartInv(typ, known, requests);
    StepsInv(Start(typ, known, requests), sched, s, known.Some?);
  }

  /** ... and all callers that have the same slot get the same cell and the same answer: all of
      Info, all of Stat, and for an entry that is no link Info and Stat alike. */
  lemma SameAnswer(typ: FileType, known: Option<Answer>, requests: seq<Request>, sched: seq<(nat, Answer)>, s: Cache,
                   i: nat, k: nat)
    requires Steps(Start(typ, known, requests), sched, s)
    requires i < |requests| == |s.callers| && k < |requests|
    requires s.callers[i].Finished? && s.callers[k].Finished?
    requires requests[i] == requests[k] || typ != Symlink
    ensures s.callers[i].cell == s.callers[k].cell && s.callers[i].answer == s.callers[k].answer
  {
    StartInv(typ, known, requests);
    StepsInv(Start(typ, known, requests), sched, s, known.Some?);
    StepsKeepSlots(Start(typ, known, requests), sched, s);
  }

  // ----- which answer

  /** The step of caller `i` makes the system call for slot `j`. */
  ghost predicate MakesCall(s: Cache, i: nat, j: nat)
    requires WellFormed(s) && j < 2
  {
    i < |s.callers| && s.callers[i].Statting? && s.callers[i].slot == j
  }

  /** Slot `j` has its answer. */
  ghost predicate Holds(s: Cache, j: nat, a: Answer)
    requires WellFormed(s) && j < 2
  {
    s.slots[j].Some? && s.cells[s.slots[j].value] == Ready(a)
  }

  /** A slot keeps its answer. */
  lemma StepKeepsAnswer(s: Cache, i: nat, os: Answer, j: nat, a: Answer)
    requires WellFormed(s) && OffersInv(s) && CallersInv(s) && CanStep(s, i) && j < 2 && Holds(s, j, a)
    ensures WellFormed(StepOf(s, i, os)) && Holds(StepOf(s, i, os), j, a)
    ensures StepOf(s, i, os).stats[j] == s.stats[j]
  {
    StepCallers(s, i, os);
  }

  lemma {:induction false} StepsKeepAnswer(s: Cache, sched: seq<(nat, Answer)>, s': Cache, preset: bool, j: nat,
                                           a: Answer)
    requires Inv(s, preset) && Steps(s, sched, s') && j < 2 && Holds(s, j, a)
    ensures WellFormed(s') && Holds(s', j, a) && s'.stats[j] == s.stats[j]
    decreases |sched|
  {
    if sched != [] {
      StepInv(s, sched[0].0, sched[0].1, preset);
      StepKeepsAnswer(s, sched[0].0, sched[0].1, j, a);
      StepsKeepAnswer(StepOf(s, sched[0].0, sched[0].1), sched[1..], s', preset, j, a);
    }
  }

  /** The call for a slot leaves what the system reported in it, and no other step counts as a call. */
  lemma StepAnswers(s: Cache, i: nat, os: Answer, j: nat)
    requires WellFormed(s) && OffersInv(s) && CallersInv(s) && CanStep(s, i) && j < 2
    ensures WellFormed(StepOf(s, i, os))
    ensures StepOf(s, i, os).stats[j] == s.stats[j] + if MakesCall(s, i, j) then 1 else 0
    ensures MakesCall(s, i, j) ==> Holds(StepOf(s, i, os), j, os)
  {
    StepCallers(s, i, os);
  }

  /** Step `n` of the schedule makes the first system call for slot `j`: its count goes from 0 to 1. */
  ghost predicate CalledAt(s: Cache, sched: seq<(nat, Answer)>, j: nat, n: nat)
    requires j < 2
  {
    && n < |sched|
    && exists u, v :: Steps(s, sched[..n], u) && Steps(s, sched[..n + 1], v)
                      && |u.stats| == |v.stats| == 2 && u.stats[j] == 0 && v.stats[j] == 1
  }

  lemma CalledFirst(s: Cache, sched: seq<(nat, Answer)>, j: nat)
    requires WellFormed(s) && j < 2 && sched != [] && CanStep(s, sched[0].0)
    requires s.stats[j] == 0 && StepOf(s, sched[0].0, sched[0].1).stats[j] == 1
    requires |StepOf(s, sched[0].0, sched[0].1).stats| == 2
    ensures CalledAt(s, sched, j, 0)
  {
    var v := StepOf(s, sched[0].0, sched[0].1);
    assert sched[..0] == [] && sched[..1] == [sched[0]] && sched[..1][1..] == [];
    assert Steps(v, [], v);
    assert Steps(s, sched[..0], s) && Steps(s, sched[..1], v);
  }

  lemma CalledLater(s: Cache, sched: seq<(nat, Answer)>, j: nat, n: nat)
    requires WellFormed(s) && j < 2 && sched != [] && CanStep(s, sched[0].0)
    requires CalledAt(StepOf(s, sched[0].0, sched[0].1), sched[1..], j, n)
    ensures CalledAt(s, sched, j, n + 1)
  {
    var s1 := StepOf(s, sched[0].0, sched[0].1);
    var u, v :| Steps(s1, sched[1..][..n], u) && Steps(s1, sched[1..][..n + 1], v)
                && |u.stats| == |v.stats| == 2 && u.stats[j] == 0 && v.stats[j] == 1;
    assert sched[..n + 1][1..] == sched[1..][..n] && sched[..n + 2][1..] == sched[1..][..n + 1];
    assert Steps(s, sched[..n + 1], u) && Steps(s, sched[..n + 2], v);
  }

  lemma AnswerOfFirst(s: Cache, sched: seq<(nat, Answer)>, s': Cache, preset: bool, j: nat)
    requires Inv(s, preset) && Steps(s, sched, s') && j < 2 && s.stats[j] == 0
    requires sched != [] && MakesCall(s, sched[0].0, j)
    ensures CalledAt(s, sched, j, 0) && WellFormed(s') && Holds(s', j, sched[0].1)
  {
    var i, os := sched[0].0, sched[0].1;
    StepInv(s, i, os, preset);
    StepAnswers(s, i, os, j);
    CalledFirst(s, sched, j);
    StepsKeepAnswer(StepOf(s, i, os), sched[1..], s', preset, j, os);
  }

  /** The step that made the system call for a slot has left its report there. */
  lemma {:induction false} AnswerOfCall(s: Cache, sched: seq<(nat, Answer)>, s': Cache, preset: bool, j: nat)
    returns (n: nat)
    requires Inv(s, preset) && Steps(s, sched, s') && j < 2 && s.stats[j] == 0
    requires WellFormed(s') && s'.stats[j] == 1
    ensures CalledAt(s, sched, j, n) && Holds(s', j, sched[n].1)
    decreases |sched|
  {
    var i, os := sched[0].0, sched[0].1;
    if MakesCall(s, i, j) {
      n := 0;
      AnswerOfFirst(s, sched, s', preset, j);
    } else {
      StepInv(s, i, os, preset);
      StepAnswers(s, i, os, j);
      n := AnswerOfCall(StepOf(s, i, os), sched[1..], s', preset, j);
      CalledLater(s, sched, j, n);
      n := n + 1;
    }
  }

  /** In every interleaving, whoever has finished has the answer that the system gave to the one call made
      for the slot, at that step of the schedule; or the answer that the entry of the root started with. */
  lemma AnswerIsReported(typ: FileType, known: Option<Answer>, requests: seq<Request>, sched: seq<(nat, Answer)>,
                         s: Cache, i: nat) returns (n: nat)
    requires Steps(Start(typ, known, requests), sched, s)
    requires i < |requests| == |s.callers| && s.callers[i].Finished?
    ensures var j := if requests[i] == Stat && typ == Symlink then 1 else 0;
            if known.Some? && j == 0 then s.callers[i].answer == known.value
            else CalledAt(Start(typ, known, requests), sched, j, n) && s.callers[i].answer == sched[n].1
  {
    var s0, j := Start(typ, known, requests), SlotOf(typ, requests[i]);
    StartInv(typ, known, requests);
    StepsInv(s0, sched, s, known.Some?);
    StepsKeepSlots(s0, sched, s);
    n := 0;
    if known.Some? && j == 0 {
      StepsKeepAnswer(s0, sched, s, true, 0, known.value);
    } else {
      FinishedWasCalled(s, i, known.Some?);
      n := AnswerOfCall(s0, sched, s, known.Some?, j);
    }
  }

  lemma FinishedWasCalled(s: Cache, i: nat, preset: bool)
    requires Inv(s, preset) && i < |s.callers| && s.callers[i].Finished?
    ensures !(preset && s.callers[i].slot == 0) ==> s.stats[s.callers[i].slot] == 1
  {
  }

  /** Nobody waits for ever: as long as a caller has not finished, some caller can step. */
  lemma CacheDeadlockFree(typ: FileType, known: Option<Answer>, requests: seq<Request>, sched: seq<(nat, Answer)>,
                          s: Cache, i: nat) returns (k: nat)
    requires Steps(Start(typ, known, requests), sched, s)
    requires i < |s.callers| && !s.callers[i].Finished?
    ensures WellFormed(s) && CanStep(s, k)
  {
    StartInv(typ, known, requests);
    StepsInv(Start(typ, known, requests), sched, s, known.Some?);
    k := i;
    if s.callers[i].Entering? && s.cells[s.callers[i].cell].Running? {
      k := SumWitness(s.callers, RunsIn(s.callers[i].slot));
    }
  }
}
