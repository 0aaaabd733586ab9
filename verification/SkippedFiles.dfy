/** ErrSkipFiles: once it has been returned for an entry of a directory, no file in that directory is
    passed to the callback. This needs that a directory is only ever read once, by one worker. */
module SkippedFiles {
  import opened Entries
  import opened Protocol
  import opened Ledger
  import opened Ownership
  import C = Consent

  // ----- a directory is opened once

  /** The item may still lead to the opening of `d`. */
  ghost function LeadsTo(d: Path): Item -> nat {
    (it: Item) => if IsPrefix(it.dir, d) then 1 else 0
  }

  ghost function LeadsFrom(w: Worker, d: Path): nat {
    match w
    case Entering(it) => LeadsTo(d)(it)
    case Reading(it, rest, _) => Sum(rest, OwnsEntry(it.dir, d))
    case Enqueueing(it, rest, _, pending) => Sum(rest, OwnsEntry(it.dir, d)) + LeadsTo(d)(pending)
    case _ => 0
  }

  ghost function WorkerLeadsTo(d: Path): Worker -> nat {
    (w: Worker) => LeadsFrom(w, d)
  }

  ghost function IsOpening(d: Path): Event -> nat {
    (e: Event) => if e == Opened(d) then 1 else 0
  }

  ghost function Openings(s: State, d: Path): nat {
    Sum(s.log, IsOpening(d)) + Total(s, LeadsTo(d), WorkerLeadsTo(d))
  }

  lemma CallOpens(c: Call, more: seq<Event>, d: Path)
    ensures Sum([Called(c)] + more, IsOpening(d)) == Sum(more, IsOpening(d))
  {
    SumFirst(Called(c), more, IsOpening(d));
  }

  lemma OpenLeads(cfg: Config, it: Item, d: Path)
    requires UniquelyNamed(cfg.fs)
    ensures LeadsFrom(Open(cfg, it), d) + Sum(OpenEvents(cfg, it), IsOpening(d)) <= LeadsTo(d)(it)
  {
    OneEntryOwns(it.dir, cfg.fs.list(it.dir).entries, d);
    SumFirst(Opened(it.dir), [], IsOpening(d));
    assert [Opened(it.dir)] + [] == [Opened(it.dir)];
    if it.dir == d {
      assert d[..|d|] == d;
    }
  }

  lemma EnterLeads(cfg: Config, it: Item, log: seq<Event>, d: Path)
    requires UniquelyNamed(cfg.fs)
    ensures var m := Advance(cfg, Entering(it), log);
            LeadsFrom(m.next, d) + Sum(m.events, IsOpening(d)) <= LeadsFrom(Entering(it), d)
  {
    OpenLeads(cfg, it, d);
    CallOpens(ItemCall(it, Nil), OpenEvents(cfg, it), d);
    CallOpens(ItemCall(it, Nil), [], d);
    assert [Called(ItemCall(it, Nil))] + [] == [Called(ItemCall(it, Nil))];
  }

  lemma ReadLeads(cfg: Config, w: Worker, log: seq<Event>, d: Path)
    requires w.Reading?
    ensures var m := Advance(cfg, w, log);
            LeadsFrom(m.next, d) + Sum(m.events, IsOpening(d)) <= LeadsFrom(w, d)
  {
    if w.rest != [] {
      EntryMoves(cfg, w, log);
      CallOpens(EntryCall(w.it, w.rest[0]), [], d);
      assert [Called(EntryCall(w.it, w.rest[0]))] + [] == [Called(EntryCall(w.it, w.rest[0]))];
    }
  }

  lemma GoLeads(cfg: Config, w: Worker, log: seq<Event>, d: Path)
    requires UniquelyNamed(cfg.fs) && Active(w)
    ensures var m := Advance(cfg, w, log);
            LeadsFrom(m.next, d) + Sum(m.events, IsOpening(d)) <= LeadsFrom(w, d)
  {
    match w {
      case Entering(it) => EnterLeads(cfg, it, log, d);
      case Reading(_, _, _) => ReadLeads(cfg, w, log, d);
      case Reporting(it, err) =>
        CallOpens(ItemCall(it, err), [], d);
        assert [Called(ItemCall(it, err))] + [] == [Called(ItemCall(it, err))];
    }
  }

  lemma LeadsPassedOn(d: Path)
    ensures PassedOn(LeadsTo(d), WorkerLeadsTo(d))
  {
  }

  lemma SpendsLeads(cfg: Config, s: State, a: Action, d: Path)
    requires UniquelyNamed(cfg.fs) && Enabled(cfg, s, a)
    ensures Sum(NewEvents(cfg, s, a), IsOpening(d)) <= Spent(cfg, s, a, LeadsTo(d), WorkerLeadsTo(d))
  {
    if a.Go? {
      GoLeads(cfg, s.workers[a.i], s.log, d);
    } else {
      SumZero(NewEvents(cfg, s, a), IsOpening(d));
      LeadsPassedOn(d);
      ChannelSpends(cfg, s, a, LeadsTo(d), WorkerLeadsTo(d));
    }
  }

  lemma StepOpenings(cfg: Config, s: State, a: Action, d: Path)
    requires UniquelyNamed(cfg.fs) && Enabled(cfg, s, a)
    ensures Openings(Apply(cfg, s, a), d) <= Openings(s, d)
  {
    TotalStep(cfg, s, a, LeadsTo(d), WorkerLeadsTo(d));
    SpendsLeads(cfg, s, a, d);
    LogGrows(cfg, s, a);
    SumAppend(s.log, NewEvents(cfg, s, a), IsOpening(d));
  }

  // ----- and read by one worker

  ghost function Reads(d: Path): Worker -> nat {
    (w: Worker) => if (w.Reading? || w.Enqueueing?) && w.it.dir == d then 1 else 0
  }

  lemma SumTwo(q: seq<Worker>, i: nat, k: nat, f: Worker -> nat)
    requires i < |q| && k < |q| && i != k
    ensures f(q[i]) + f(q[k]) <= Sum(q, f)
  {
    var (lo, hi) := if i < k then (i, k) else (k, i);
    assert q == q[..hi] + q[hi..];
    SumAppend(q[..hi], q[hi..], f);
    SumAtLeast(q[..hi], lo, f);
    SumAtLeast(q[hi..], 0, f);
  }

  lemma GoReads(cfg: Config, w: Worker, log: seq<Event>, d: Path)
    requires Active(w)
    ensures var m := Advance(cfg, w, log);
            Reads(d)(m.next) <= Reads(d)(w) + Sum(m.events, IsOpening(d))
  {
    if w.Entering? {
      EnterReads(cfg, w.it, log, d);
    } else if w.Reading? && w.rest != [] {
      EntryMoves(cfg, w, log);
    }
  }

  lemma EnterReads(cfg: Config, it: Item, log: seq<Event>, d: Path)
    ensures var m := Advance(cfg, Entering(it), log);
            Reads(d)(m.next) <= Sum(m.events, IsOpening(d))
  {
    CallOpens(ItemCall(it, Nil), OpenEvents(cfg, it), d);
    SumFirst(Opened(it.dir), [], IsOpening(d));
    assert [Opened(it.dir)] + [] == [Opened(it.dir)];
  }

  lemma StepReads(cfg: Config, s: State, a: Action, d: Path)
    requires Enabled(cfg, s, a) && Sum(s.workers, Reads(d)) <= Sum(s.log, IsOpening(d))
    ensures var s' := Apply(cfg, s, a);
            Sum(s'.workers, Reads(d)) <= Sum(s'.log, IsOpening(d))
  {
    LogGrows(cfg, s, a);
    SumAppend(s.log, NewEvents(cfg, s, a), IsOpening(d));
    if a.Go? {
      GoReads(cfg, s.workers[a.i], s.log, d);
    }
    if IsWorkerAction(a) {
      SumUpdate(s.workers, a.i, Apply(cfg, s, a).workers[a.i], Reads(d));
    }
  }

  // ----- ErrSkipFiles

  /** The call for an entry of `d`. */
  ghost predicate CallIn(cfg: Config, e: Event, d: Path) {
    e.Called? && e.call.err == Nil && e.call.typ != Directory && |e.call.path| > |cfg.root| && Parent(e.call.path) == d
  }

  ghost predicate SkipsAt(cfg: Config, log: seq<Event>, d: Path, i: nat)
    requires i < |log|
  {
    CallIn(cfg, log[i], d) && cfg.fn(log[..i], log[i].call) == SkipFiles
  }

  ghost predicate Skipped(cfg: Config, log: seq<Event>, d: Path) {
    exists i :: 0 <= i < |log| && SkipsAt(cfg, log, d, i)
  }

  /** No file of `d` after an ErrSkipFiles. */
  ghost predicate Kept(cfg: Config, log: seq<Event>, d: Path) {
    forall j :: 0 <= j < |log| && CallIn(cfg, log[j], d) && log[j].call.typ == Regular ==> !Skipped(cfg, log[..j], d)
  }

  ghost predicate ReaderSkips(w: Worker, d: Path) {
    Reads(d)(w) == 1 ==> w.skipFiles
  }

  ghost predicate SkipInv(cfg: Config, s: State, d: Path) {
    && C.GoodState(cfg, s)
    && Openings(s, d) <= 1
    && Sum(s.workers, Reads(d)) <= Sum(s.log, IsOpening(d))
    && Kept(cfg, s.log, d)
    && (Skipped(cfg, s.log, d) ==> forall i :: 0 <= i < |s.workers| ==> ReaderSkips(s.workers[i], d))
  }

  lemma OneEventMore(cfg: Config, log: seq<Event>, e: Event, d: Path)
    ensures Skipped(cfg, log + [e], d) <==>
            Skipped(cfg, log, d) || (CallIn(cfg, e, d) && cfg.fn(log, e.call) == SkipFiles)
    ensures Kept(cfg, log + [e], d) <==>
            Kept(cfg, log, d) && (CallIn(cfg, e, d) && e.call.typ == Regular ==> !Skipped(cfg, log, d))
  {
    var log' := log + [e];
    assert forall i :: 0 <= i < |log| ==> log'[..i] == log[..i] && log'[i] == log[i];
    assert log'[..|log|] == log;
    if Skipped(cfg, log, d) {
      var i :| 0 <= i < |log| && SkipsAt(cfg, log, d, i);
      assert SkipsAt(cfg, log', d, i);
    }
    if CallIn(cfg, e, d) && cfg.fn(log, e.call) == SkipFiles {
      assert SkipsAt(cfg, log', d, |log|);
    }
    if Skipped(cfg, log', d) {
      var i :| 0 <= i < |log'| && SkipsAt(cfg, log', d, i);
      assert i < |log| ==> SkipsAt(cfg, log, d, i);
    }
    if Kept(cfg, log', d) {
      forall j | 0 <= j < |log| && CallIn(cfg, log[j], d) && log[j].call.typ == Regular
        ensures !Skipped(cfg, log[..j], d)
      {
        assert CallIn(cfg, log'[j], d);
      }
    }
  }

  /** Where ErrSkipFiles was returned, the directory has been opened. */
  lemma SkippedIsOpened(cfg: Config, log: seq<Event>, d: Path)
    requires C.GoodLog(cfg, log) && Skipped(cfg, log, d)
    ensures Sum(log, IsOpening(d)) >= 1
  {
    var i :| 0 <= i < |log| && SkipsAt(cfg, log, d, i);
    assert C.Justified(cfg, log[..i], log[i]);
    var k :| 0 <= k < |log[..i]| && log[..i][k] == Opened(d);
    SumAtLeast(log, k, IsOpening(d));
  }

  /** What the step of a worker means for `d`. */
  ghost predicate KeepsFiles(cfg: Config, log: seq<Event>, w: Worker, m: Move, d: Path) {
    && Kept(cfg, log + m.events, d)
    && (Skipped(cfg, log + m.events, d) ==> ReaderSkips(m.next, d))
    && (Skipped(cfg, log + m.events, d) && !Skipped(cfg, log, d) ==> Reads(d)(w) == 1)
  }

  /** Events that are no such calls change nothing. */
  lemma {:induction false} NoCallMore(cfg: Config, log: seq<Event>, more: seq<Event>, d: Path)
    requires forall e :: e in more ==> !CallIn(cfg, e, d)
    ensures Skipped(cfg, log + more, d) <==> Skipped(cfg, log, d)
    ensures Kept(cfg, log + more, d) <==> Kept(cfg, log, d)
    decreases |more|
  {
    if more == [] {
      assert log + [] == log;
    } else {
      OneEventMore(cfg, log, more[0], d);
      NoCallMore(cfg, log + [more[0]], more[1..], d);
      assert log + [more[0]] + more[1..] == log + more;
    }
  }

  lemma EnterQuiet(cfg: Config, it: Item, log: seq<Event>, d: Path)
    requires C.GoodItem(cfg, log, it)
    ensures var m := Advance(cfg, Entering(it), log);
            && (forall e :: e in m.events ==> !CallIn(cfg, e, d))
            && (Reads(d)(m.next) == 1 ==> it.dir == d)
  {
  }

  lemma EnterKeeps(cfg: Config, it: Item, log: seq<Event>, d: Path)
    requires C.GoodLog(cfg, log) && C.GoodItem(cfg, log, it) && Kept(cfg, log, d)
    requires Sum(log, IsOpening(d)) + LeadsTo(d)(it) <= 1
    ensures KeepsFiles(cfg, log, Entering(it), Advance(cfg, Entering(it), log), d)
  {
    EnterQuiet(cfg, it, log, d);
    NoCallMore(cfg, log, Advance(cfg, Entering(it), log).events, d);
    if Skipped(cfg, log, d) {
      SkippedIsOpened(cfg, log, d);
      assert d[..|d|] == d;
    }
  }

  lemma ReadKeeps(cfg: Config, w: Worker, log: seq<Event>, d: Path)
    requires w.Reading? && C.GoodWorker(cfg, log, w) && Kept(cfg, log, d)
    requires Skipped(cfg, log, d) ==> ReaderSkips(w, d)
    ensures KeepsFiles(cfg, log, w, Advance(cfg, w, log), d)
  {
    assert log + [] == log;
    if w.rest != [] {
      var c := EntryCall(w.it, w.rest[0]);
      assert Parent(c.path) == w.it.dir;
      OneEventMore(cfg, log, Called(c), d);
    }
  }

  lemma GoKeeps(cfg: Config, w: Worker, log: seq<Event>, d: Path)
    requires Active(w) && C.GoodLog(cfg, log) && C.GoodWorker(cfg, log, w) && Kept(cfg, log, d)
    requires Sum(log, IsOpening(d)) + LeadsFrom(w, d) <= 1
    requires Skipped(cfg, log, d) ==> ReaderSkips(w, d)
    ensures KeepsFiles(cfg, log, w, Advance(cfg, w, log), d)
  {
    match w {
      case Entering(it) => EnterKeeps(cfg, it, log, d);
      case Reading(_, _, _) => ReadKeeps(cfg, w, log, d);
      case Reporting(it, err) => OneEventMore(cfg, log, Called(ItemCall(it, err)), d);
    }
  }

  lemma GoStep(cfg: Config, s: State, i: nat, d: Path)
    requires Enabled(cfg, s, Go(i)) && SkipInv(cfg, s, d)
    ensures var s' := Apply(cfg, s, Go(i));
            && Kept(cfg, s'.log, d)
            && (Skipped(cfg, s'.log, d) ==> forall k :: 0 <= k < |s'.workers| ==> ReaderSkips(s'.workers[k], d))
  {
    var w := s.workers[i];
    SumAtLeast(s.workers, i, WorkerLeadsTo(d));
    assert C.GoodWorkers(cfg, s.log)(w);
    GoKeeps(cfg, w, s.log, d);
    var s' := Apply(cfg, s, Go(i));
    if Skipped(cfg, s'.log, d) {
      forall k | 0 <= k < |s'.workers|
        ensures ReaderSkips(s'.workers[k], d)
      {
        if k != i && !Skipped(cfg, s.log, d) {
          SumTwo(s.workers, i, k, Reads(d));
        }
      }
    }
  }

  lemma OtherStep(cfg: Config, s: State, a: Action, d: Path)
    requires Enabled(cfg, s, a) && SkipInv(cfg, s, d) && !a.Go?
    ensures var s' := Apply(cfg, s, a);
            && Kept(cfg, s'.log, d)
            && (Skipped(cfg, s'.log, d) ==> forall k :: 0 <= k < |s'.workers| ==> ReaderSkips(s'.workers[k], d))
  {
    LogGrows(cfg, s, a);
    NoCallMore(cfg, s.log, NewEvents(cfg, s, a), d);
    SameReaders(cfg, s, a, d);
  }

  /** A worker that passes an item on reads what it has read before, and as it did. */
  lemma SameReaders(cfg: Config, s: State, a: Action, d: Path)
    requires Enabled(cfg, s, a) && !a.Go?
    ensures var s' := Apply(cfg, s, a);
            && |s'.workers| == |s.workers|
            && forall k :: 0 <= k < |s.workers| && ReaderSkips(s.workers[k], d) ==> ReaderSkips(s'.workers[k], d)
  {
  }

  lemma StepSkip(cfg: Config, s: State, a: Action, d: Path)
    requires UniquelyNamed(cfg.fs) && Enabled(cfg, s, a) && SkipInv(cfg, s, d)
    ensures SkipInv(cfg, Apply(cfg, s, a), d)
  {
    C.StepGood(cfg, s, a);
    StepOpenings(cfg, s, a, d);
    StepReads(cfg, s, a, d);
    if a.Go? {
      GoStep(cfg, s, a.i, d);
    } else {
      OtherStep(cfg, s, a, d);
    }
  }

  lemma {:induction false} RunSkip(cfg: Config, s: State, acts: seq<Action>, t: State, d: Path)
    requires UniquelyNamed(cfg.fs) && SkipInv(cfg, s, d) && Run(cfg, s, acts, t)
    ensures SkipInv(cfg, t, d)
    decreases |acts|
  {
    if acts == [] {
    } else {
      StepSkip(cfg, s, acts[0], d);
      RunSkip(cfg, Apply(cfg, s, acts[0]), acts[1..], t, d);
    }
  }

  lemma InitSkip(cfg: Config, d: Path)
    ensures SkipInv(cfg, Init(cfg), d)
  {
    var s := Init(cfg);
    assert C.GoodState(cfg, s) && Kept(cfg, s.log, d) && !Skipped(cfg, s.log, d);
    SumZero(s.workers, Reads(d));
    InitOpenings(cfg, d);
  }

  lemma InitOpenings(cfg: Config, d: Path)
    ensures Openings(Init(cfg), d) <= 1
  {
    if cfg.fs.stat(cfg.root).Some? {
      var root := RootItem(cfg, cfg.fs.stat(cfg.root).value);
      SumLast([], root, LeadsTo(d));
      SumZero(Init(cfg).workers, WorkerLeadsTo(d));
      assert Init(cfg).todo == [] + [root];
    }
  }

  // ----- what it means

  /** In every run of every callback no path is opened as a directory twice. */
  lemma OpenedOnce(cfg: Config, acts: seq<Action>, s: State, d: Path)
    requires UniquelyNamed(cfg.fs) && Run(cfg, Init(cfg), acts, s)
    ensures Sum(s.log, IsOpening(d)) <= 1
  {
    InitSkip(cfg, d);
    RunSkip(cfg, Init(cfg), acts, s, d);
  }

  lemma KeptInRuns(cfg: Config, acts: seq<Action>, s: State, d: Path)
    requires UniquelyNamed(cfg.fs) && Run(cfg, Init(cfg), acts, s)
    ensures Kept(cfg, s.log, d)
  {
    InitSkip(cfg, d);
    RunSkip(cfg, Init(cfg), acts, s, d);
  }

  lemma NoFileAfterSkip(cfg: Config, log: seq<Event>, d: Path, i: nat, j: nat)
    requires Kept(cfg, log, d) && i < j < |log| && SkipsAt(cfg, log, d, i)
    ensures CallIn(cfg, log[j], d) ==> log[j].call.typ != Regular
  {
    assert log[..j][i] == log[i] && log[..j][..i] == log[..i];
    assert SkipsAt(cfg, log[..j], d, i);
  }

  /** Whatever the callback is: after it has answered ErrSkipFiles to the call for an entry of the
      directory `d`, no file in `d` is passed to it. */
  lemma SkipFilesIsKept(cfg: Config, acts: seq<Action>, s: State, d: Path, i: nat, j: nat)
    requires UniquelyNamed(cfg.fs) && Run(cfg, Init(cfg), acts, s) && i < j < |s.log|
    requires CallIn(cfg, s.log[i], d) && cfg.fn(s.log[..i], s.log[i].call) == SkipFiles
    ensures CallIn(cfg, s.log[j], d) ==> s.log[j].call.typ != Regular
  {
    KeptInRuns(cfg, acts, s, d);
    NoFileAfterSkip(cfg, s.log, d, i, j);
  }
}
