/** The calls for the entries of one directory are made in the order of its listing, whatever else goes on
    in between, since a directory is read by one worker and only once. */
module InOrder {
  import opened Entries
  import opened Protocol
  import opened Ledger
  import opened Ownership
  import opened SkippedFiles
  import C = Consent
  import S = Sorting

  function EntryOf(c: Call): DirEnt
    requires c.path != []
  {
    DirEnt(c.path[|c.path| - 1], c.typ)
  }

  function Listed(cfg: Config, d: Path): seq<DirEnt> {
    cfg.fs.list(d).entries
  }

  /** The event, if it is a call in `d`, is for one of the first `n` entries. */
  ghost predicate AmongFirst(cfg: Config, e: Event, d: Path, n: nat) {
    CallIn(cfg, e, d) ==> exists a :: 0 <= a < n && a < |Listed(cfg, d)| && Listed(cfg, d)[a] == EntryOf(e.call)
  }

  ghost predicate AllAmongFirst(cfg: Config, log: seq<Event>, d: Path, n: nat) {
    forall i :: 0 <= i < |log| ==> AmongFirst(cfg, log[i], d, n)
  }

  /** Call `j` is for entry `b`, and all earlier ones are for earlier entries. */
  ghost predicate AfterEarlier(cfg: Config, log: seq<Event>, d: Path, j: nat, b: nat)
    requires j < |log| && CallIn(cfg, log[j], d)
  {
    b < |Listed(cfg, d)| && Listed(cfg, d)[b] == EntryOf(log[j].call) && AllAmongFirst(cfg, log[..j], d, b)
  }

  ghost predicate Ordered(cfg: Config, log: seq<Event>, d: Path) {
    forall j :: 0 <= j < |log| && CallIn(cfg, log[j], d) ==> exists b: nat :: AfterEarlier(cfg, log, d, j, b)
  }

  /** A reader of `d` has called for nothing that it still has to read. */
  ghost predicate ReaderAhead(cfg: Config, log: seq<Event>, w: Worker, d: Path) {
    Reads(d)(w) == 1 ==>
      var n := |Listed(cfg, d)| - |w.rest|;
      n >= 0 && w.rest == Listed(cfg, d)[n..] && AllAmongFirst(cfg, log, d, n)
  }

  ghost predicate OrderInv(cfg: Config, s: State, d: Path) {
    && SkipInv(cfg, s, d)
    && Ordered(cfg, s.log, d)
    && forall i :: 0 <= i < |s.workers| ==> ReaderAhead(cfg, s.log, s.workers[i], d)
  }

  // ----- one more event

  lemma AmongMore(cfg: Config, log: seq<Event>, e: Event, d: Path, n: nat, n': nat)
    requires AllAmongFirst(cfg, log, d, n) && AmongFirst(cfg, e, d, n') && n <= n'
    ensures AllAmongFirst(cfg, log + [e], d, n')
  {
    forall i | 0 <= i < |log + [e]|
      ensures AmongFirst(cfg, (log + [e])[i], d, n')
    {
      if i < |log| {
        assert AmongFirst(cfg, log[i], d, n);
      }
    }
  }

  lemma OrderedMore(cfg: Config, log: seq<Event>, e: Event, d: Path, b: nat)
    requires Ordered(cfg, log, d)
    requires CallIn(cfg, e, d) ==>
               b < |Listed(cfg, d)| && Listed(cfg, d)[b] == EntryOf(e.call) && AllAmongFirst(cfg, log, d, b)
    ensures Ordered(cfg, log + [e], d)
  {
    var log' := log + [e];
    forall j | 0 <= j < |log'| && CallIn(cfg, log'[j], d)
      ensures exists b: nat :: AfterEarlier(cfg, log', d, j, b)
    {
      assert log'[..j] == log[..j] && log[..|log|] == log;
      if j < |log| {
        var b' :| AfterEarlier(cfg, log, d, j, b');
        assert AfterEarlier(cfg, log', d, j, b');
      } else {
        assert AfterEarlier(cfg, log', d, j, b);
      }
    }
  }

  lemma {:induction false} QuietOrdered(cfg: Config, log: seq<Event>, more: seq<Event>, d: Path)
    requires Ordered(cfg, log, d) && forall e :: e in more ==> !CallIn(cfg, e, d)
    ensures Ordered(cfg, log + more, d)
    ensures forall n :: AllAmongFirst(cfg, log, d, n) ==> AllAmongFirst(cfg, log + more, d, n)
    decreases |more|
  {
    if more == [] {
      assert log + [] == log;
    } else {
      OrderedMore(cfg, log, more[0], d, 0);
      QuietOrdered(cfg, log + [more[0]], more[1..], d);
      assert log + [more[0]] + more[1..] == log + more;
      forall n | AllAmongFirst(cfg, log, d, n)
        ensures AllAmongFirst(cfg, log + more, d, n)
      {
        AmongMore(cfg, log, more[0], d, n, n);
      }
    }
  }

  /** Nothing is called in a directory that has not been opened. */
  lemma UnopenedUncalled(cfg: Config, log: seq<Event>, d: Path)
    requires C.GoodLog(cfg, log) && Sum(log, IsOpening(d)) == 0
    ensures AllAmongFirst(cfg, log, d, 0)
  {
    forall i | 0 <= i < |log|
      ensures !CallIn(cfg, log[i], d)
    {
      if CallIn(cfg, log[i], d) {
        assert C.Justified(cfg, log[..i], log[i]);
        var k :| 0 <= k < |log[..i]| && log[..i][k] == Opened(d);
        SumAtLeast(log, k, IsOpening(d));
      }
    }
  }

  // ----- the steps of a worker

  /** What the step of a worker means for `d`. */
  ghost predicate KeepsOrder(cfg: Config, log: seq<Event>, w: Worker, m: Move, d: Path) {
    && Ordered(cfg, log + m.events, d)
    && ReaderAhead(cfg, log + m.events, m.next, d)
    && (Reads(d)(w) == 0 ==> forall e :: e in m.events ==> !CallIn(cfg, e, d))
  }

  lemma EnterOrder(cfg: Config, it: Item, log: seq<Event>, d: Path)
    requires C.GoodLog(cfg, log) && C.GoodItem(cfg, log, it) && Ordered(cfg, log, d)
    requires Sum(log, IsOpening(d)) + LeadsTo(d)(it) <= 1
    ensures KeepsOrder(cfg, log, Entering(it), Advance(cfg, Entering(it), log), d)
  {
    var m := Advance(cfg, Entering(it), log);
    EnterQuiet(cfg, it, log, d);
    QuietOrdered(cfg, log, m.events, d);
    if Reads(d)(m.next) == 1 {
      assert d[..|d|] == d;
      UnopenedUncalled(cfg, log, d);
      assert m.next.rest == Listed(cfg, d) == Listed(cfg, d)[0..];
    }
  }

  /** The call for the first of the entries that are left. */
  lemma EntryOrder(cfg: Config, w: Worker, log: seq<Event>, m: Move, d: Path)
    requires w.Reading? && w.rest != [] && Ordered(cfg, log, d) && ReaderAhead(cfg, log, w, d)
    requires Ledger.EntryMove(cfg, w, log, m)
    ensures KeepsOrder(cfg, log, w, m, d)
  {
    var c := EntryCall(w.it, w.rest[0]);
    assert Parent(c.path) == w.it.dir;
    if m.events == [] || w.it.dir != d {
      QuietOrdered(cfg, log, m.events, d);
    } else {
      var b := |Listed(cfg, d)| - |w.rest|;
      assert Listed(cfg, d)[b] == w.rest[0] == EntryOf(c);
      OrderedMore(cfg, log, Called(c), d, b);
      AmongMore(cfg, log, Called(c), d, b, b + 1);
    }
    if w.it.dir == d {
      TailAhead(cfg, log, m.events, w, d);
    }
  }

  lemma TailAhead(cfg: Config, log: seq<Event>, more: seq<Event>, w: Worker, d: Path)
    requires w.Reading? && w.rest != [] && ReaderAhead(cfg, log, w, d) && w.it.dir == d
    requires more == [] || more == [Called(EntryCall(w.it, w.rest[0]))]
    ensures var n := |Listed(cfg, d)| - |w.rest| + 1;
            && n >= 0 && w.rest[1..] == Listed(cfg, d)[n..]
            && AllAmongFirst(cfg, log + more, d, n)
  {
    var n := |Listed(cfg, d)| - |w.rest|;
    assert Listed(cfg, d)[n] == w.rest[0];
    if more == [] {
      assert log + [] == log;
      forall i | 0 <= i < |log|
        ensures AmongFirst(cfg, log[i], d, n + 1)
      {
        assert AmongFirst(cfg, log[i], d, n);
      }
    } else {
      AmongMore(cfg, log, more[0], d, n, n + 1);
    }
  }

  lemma GoOrder(cfg: Config, w: Worker, log: seq<Event>, d: Path)
    requires Active(w) && C.GoodLog(cfg, log) && C.GoodWorker(cfg, log, w)
    requires Ordered(cfg, log, d) && ReaderAhead(cfg, log, w, d)
    requires Sum(log, IsOpening(d)) + LeadsFrom(w, d) <= 1
    ensures KeepsOrder(cfg, log, w, Advance(cfg, w, log), d)
  {
    if w.Entering? {
      EnterOrder(cfg, w.it, log, d);
    } else if w.Reporting? || w.rest == [] {
      EndMoves(cfg, w, log);
      QuietOrdered(cfg, log, Advance(cfg, w, log).events, d);
    } else {
      EntryMoves(cfg, w, log);
      EntryOrder(cfg, w, log, Advance(cfg, w, log), d);
    }
  }

  // ----- runs

  lemma GoStepOrder(cfg: Config, s: State, i: nat, d: Path)
    requires Enabled(cfg, s, Go(i)) && OrderInv(cfg, s, d)
    ensures var s' := Apply(cfg, s, Go(i));
            && Ordered(cfg, s'.log, d)
            && forall k :: 0 <= k < |s'.workers| ==> ReaderAhead(cfg, s'.log, s'.workers[k], d)
  {
    var w := s.workers[i];
    var evs := Advance(cfg, w, s.log).events;
    SumAtLeast(s.workers, i, WorkerLeadsTo(d));
    assert C.GoodWorkers(cfg, s.log)(w);
    GoOrder(cfg, w, s.log, d);
    var s' := Apply(cfg, s, Go(i));
    forall k | 0 <= k < |s'.workers|
      ensures ReaderAhead(cfg, s'.log, s'.workers[k], d)
    {
      if k != i && Reads(d)(s.workers[k]) == 1 {
        SumTwo(s.workers, i, k, Reads(d));
        assert ReaderAhead(cfg, s.log, s.workers[k], d);
        QuietOrdered(cfg, s.log, evs, d);
      }
    }
  }

  lemma OtherStepOrder(cfg: Config, s: State, a: Action, d: Path)
    requires Enabled(cfg, s, a) && OrderInv(cfg, s, d) && !a.Go?
    ensures var s' := Apply(cfg, s, a);
            && Ordered(cfg, s'.log, d)
            && forall k :: 0 <= k < |s'.workers| ==> ReaderAhead(cfg, s'.log, s'.workers[k], d)
  {
    LogGrows(cfg, s, a);
    QuietOrdered(cfg, s.log, NewEvents(cfg, s, a), d);
    var s' := Apply(cfg, s, a);
    SameRest(cfg, s, a, d);
    forall k | 0 <= k < |s'.workers|
      ensures ReaderAhead(cfg, s'.log, s'.workers[k], d)
    {
      assert ReaderAhead(cfg, s.log, s.workers[k], d);
    }
  }

  /** A worker that passes an item on has the same entries left. */
  lemma SameRest(cfg: Config, s: State, a: Action, d: Path)
    requires Enabled(cfg, s, a) && !a.Go?
    ensures var s' := Apply(cfg, s, a);
            && |s'.workers| == |s.workers|
            && forall k :: 0 <= k < |s.workers| && Reads(d)(s'.workers[k]) == 1 ==>
                 Reads(d)(s.workers[k]) == 1 && s'.workers[k].rest == s.workers[k].rest
  {
  }

  lemma {:induction false} RunOrder(cfg: Config, s: State, acts: seq<Action>, t: State, d: Path)
    requires UniquelyNamed(cfg.fs) && OrderInv(cfg, s, d) && Run(cfg, s, acts, t)
    ensures OrderInv(cfg, t, d)
    decreases |acts|
  {
    if acts != [] {
      StepSkip(cfg, s, acts[0], d);
      if acts[0].Go? {
        GoStepOrder(cfg, s, acts[0].i, d);
      } else {
        OtherStepOrder(cfg, s, acts[0], d);
      }
      RunOrder(cfg, Apply(cfg, s, acts[0]), acts[1..], t, d);
    }
  }

  /** In every run of every callback: of two calls without an error for entries of the directory `d` that
      are no directories, the earlier one is for the entry listed first. */
  lemma CalledInListedOrder(cfg: Config, acts: seq<Action>, s: State, d: Path, i: nat, j: nat) returns (a: nat, b: nat)
    requires UniquelyNamed(cfg.fs) && Run(cfg, Init(cfg), acts, s)
    requires i < j < |s.log| && CallIn(cfg, s.log[i], d) && CallIn(cfg, s.log[j], d)
    ensures a < b < |Listed(cfg, d)|
    ensures Listed(cfg, d)[a] == EntryOf(s.log[i].call) && Listed(cfg, d)[b] == EntryOf(s.log[j].call)
  {
    InitSkip(cfg, d);
    RunOrder(cfg, Init(cfg), acts, s, d);
    b :| AfterEarlier(cfg, s.log, d, j, b);
    assert s.log[..j][i] == s.log[i];
    assert AmongFirst(cfg, s.log[..j][i], d, b);
    a :| 0 <= a < b && a < |Listed(cfg, d)| && Listed(cfg, d)[a] == EntryOf(s.log[i].call);
  }

  /** So with a sorted listing the calls are made in the order of the sort. */
  lemma CalledInSortedOrder(cfg: Config, mode: S.SortMode, acts: seq<Action>, s: State, d: Path, i: nat, j: nat)
    requires UniquelyNamed(cfg.fs) && Run(cfg, Init(cfg), acts, s) && S.Ordered(mode, Listed(cfg, d)) && S.Sorts(mode)
    requires i < j < |s.log| && CallIn(cfg, s.log[i], d) && CallIn(cfg, s.log[j], d)
    ensures S.Less(mode, EntryOf(s.log[i].call), EntryOf(s.log[j].call))
  {
    var a, b := CalledInListedOrder(cfg, acts, s, d, i, j);
    assert UniqueNames(Listed(cfg, d));
    S.LessTotal(mode, Listed(cfg, d)[a], Listed(cfg, d)[b]);
  }
}
