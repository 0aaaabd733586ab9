/** In every run of any callback, whatever it remembers: no error that it answers is lost, none that a
    directory's reading ends in, and none is made up. */
module ErrorsKept {
  import opened Entries
  import opened Protocol
  import opened Ledger
  import opened Safety
  import opened WalkErrors
  import C = Consent

  // ----- what the log says

  /** What the callback answered to the call that is event `j`. */
  ghost function AnswerAt(cfg: Config, log: seq<Event>, j: nat): Error
    requires j < |log| && log[j].Called?
  {
    cfg.fn(log[..j], log[j].call)
  }

  /** The answer `r` is a result: an error for a directory, or for a report. */
  predicate IsResult(root: Path, c: Call, r: Error) {
    r != Nil && (c.err != Nil || (ForDirectory(root, c) && r != SkipDir))
  }

  ghost predicate ResultAt(cfg: Config, log: seq<Event>, j: nat) {
    j < |log| && log[j].Called? && IsResult(cfg.root, log[j].call, AnswerAt(cfg, log, j))
  }

  /** Event `j` is the call for an entry whose answer ends the reading of `p` with `x`. */
  ghost predicate EndAt(cfg: Config, log: seq<Event>, j: nat, p: Path, x: Error) {
    && j < |log| && log[j].Called?
    && ForEntry(cfg.root, log[j].call) && Parent(log[j].call.path) == p
    && AnswerAt(cfg, log, j) == x && EndsReading(log[j].call, x)
  }

  /** Event `j` reports `x` for `p`. */
  ghost predicate ReportAt(log: seq<Event>, j: nat, p: Path, x: Error) {
    j < |log| && log[j].Called? && log[j].call.path == p && log[j].call.err == x
  }

  ghost predicate ReportedAfter(log: seq<Event>, j: nat, p: Path, x: Error) {
    exists i :: j < i && ReportAt(log, i, p, x)
  }

  /** There is a reason to report `x` for `p`. */
  ghost predicate HasReason(cfg: Config, log: seq<Event>, p: Path, x: Error) {
    cfg.fs.list(p).err == x || exists j :: EndAt(cfg, log, j, p, x)
  }

  ghost predicate SomeReport(log: seq<Event>, p: Path) {
    exists j, x :: x != Nil && ReportAt(log, j, p, x)
  }

  /** The answer `e` to a call was a result. */
  ghost predicate WasAnswered(cfg: Config, log: seq<Event>, e: Error) {
    exists j :: ResultAt(cfg, log, j) && AnswerAt(cfg, log, j) == e
  }

  // ----- the invariant

  /** An error is on its way to be returned, or is. */
  ghost predicate ErrorComes(s: State) {
    || Failed(s)
    || (exists e :: e in s.resc && e != Nil)
    || (exists i :: 0 <= i < |s.workers| && s.workers[i].Sending? && s.workers[i].res != Nil)
  }

  ghost predicate Reports(s: State, p: Path, x: Error) {
    exists i :: 0 <= i < |s.workers| && s.workers[i].Reporting? && s.workers[i].it.dir == p && s.workers[i].err == x
  }

  /** Somebody reads `p`, or reports an error of it. */
  ghost predicate InWork(s: State, p: Path) {
    exists i :: 0 <= i < |s.workers| && WorksOn(s.workers[i], p)
  }

  predicate WorksOn(w: Worker, p: Path) {
    (w.Reading? || w.Enqueueing? || w.Reporting?) && w.it.dir == p
  }

  /** What a worker is about to report or return has its reason. */
  ghost predicate Sincere(cfg: Config, log: seq<Event>, w: Worker) {
    match w
    case Reporting(it, err) => err != Nil && HasReason(cfg, log, it.dir, err)
    case Sending(res) => res != Nil ==> WasAnswered(cfg, log, res)
    case _ => true
  }

  /** Nothing has been lost. */
  ghost predicate NothingLost(cfg: Config, s: State) {
    && (forall j :: ResultAt(cfg, s.log, j) ==> ErrorComes(s))
    && (forall j, p, x :: EndAt(cfg, s.log, j, p, x) ==> ReportedAfter(s.log, j, p, x) || Reports(s, p, x))
    && (forall p :: Opened(p) in s.log && cfg.fs.list(p).err != Nil ==> SomeReport(s.log, p) || InWork(s, p))
  }

  /** Nothing has been made up. */
  ghost predicate NothingMadeUp(cfg: Config, s: State) {
    && (forall i :: 0 <= i < |s.workers| ==> Sincere(cfg, s.log, s.workers[i]))
    && (forall e :: e in s.resc && e != Nil ==> WasAnswered(cfg, s.log, e))
    && (Failed(s) ==> WasAnswered(cfg, s.log, s.coord.err))
    && (forall j, p, x :: x != Nil && ReportAt(s.log, j, p, x) ==> HasReason(cfg, s.log, p, x))
  }

  // ----- a longer log

  lemma LaterAt(cfg: Config, log: seq<Event>, more: seq<Event>, j: nat)
    requires j < |log|
    ensures (log + more)[j] == log[j] && (log + more)[..j] == log[..j]
  {
  }

  lemma ReasonLater(cfg: Config, log: seq<Event>, more: seq<Event>, p: Path, x: Error)
    requires HasReason(cfg, log, p, x)
    ensures HasReason(cfg, log + more, p, x)
  {
    if j :| EndAt(cfg, log, j, p, x) {
      LaterAt(cfg, log, more, j);
      assert EndAt(cfg, log + more, j, p, x);
    }
  }

  lemma AnsweredLater(cfg: Config, log: seq<Event>, more: seq<Event>, e: Error)
    requires WasAnswered(cfg, log, e)
    ensures WasAnswered(cfg, log + more, e)
  {
    var j :| ResultAt(cfg, log, j) && AnswerAt(cfg, log, j) == e;
    LaterAt(cfg, log, more, j);
    assert ResultAt(cfg, log + more, j);
  }

  lemma SincereLater(cfg: Config, log: seq<Event>, more: seq<Event>, w: Worker)
    requires Sincere(cfg, log, w)
    ensures Sincere(cfg, log + more, w)
  {
    match w {
      case Reporting(it, err) => ReasonLater(cfg, log, more, it.dir, err);
      case Sending(res) =>
        if res != Nil {
          AnsweredLater(cfg, log, more, res);
        }
      case _ =>
    }
  }

  // ----- the step of a worker

  /** A worker's step makes at most one call, first; if the answer is a result, it is what is sent next,
      and if it ends the reading, it is reported next. */
  ghost predicate Keeps(cfg: Config, w: Worker, m: Move, log: seq<Event>)
    requires Active(w)
  {
    && (forall i :: 0 <= i < |m.events| && m.events[i].Called? ==> i == 0)
    && (m.events != [] && m.events[0].Called? ==>
          var c := m.events[0].call;
          var r := cfg.fn(log, c);
          && (IsResult(cfg.root, c, r) ==> m.next == Sending(r))
          && (ForEntry(cfg.root, c) && EndsReading(c, r) ==>
                m.next == Reporting(w.it, r) && Parent(c.path) == w.it.dir))
  }

  /** Nothing is sent or reported otherwise. */
  ghost predicate Invents(cfg: Config, w: Worker, m: Move, log: seq<Event>)
    requires Active(w)
  {
    && (m.next.Sending? && m.next.res != Nil ==>
          m.events != [] && m.events[0].Called? && cfg.fn(log, m.events[0].call) == m.next.res
          && IsResult(cfg.root, m.events[0].call, m.next.res))
    && (m.next.Reporting? ==>
          && m.next.it == w.it && m.next.err != Nil
          && (|| cfg.fs.list(w.it.dir).err == m.next.err
              || (&& m.events != [] && m.events[0].Called? && cfg.fn(log, m.events[0].call) == m.next.err
                  && ForEntry(cfg.root, m.events[0].call) && EndsReading(m.events[0].call, m.next.err)
                  && Parent(m.events[0].call.path) == w.it.dir)))
    && (forall i :: 0 <= i < |m.events| && m.events[i].Called? && m.events[i].call.err != Nil ==>
          w.Reporting? && m.events[i].call == ItemCall(w.it, w.err))
  }

  /** A worker that reads a directory goes on with it, until it is done or has made its report. */
  ghost predicate GoesOn(cfg: Config, w: Worker, m: Move) {
    && (w.Reporting? ==> m.events == [Called(ItemCall(w.it, w.err))])
    && (w.Reading? && cfg.fs.list(w.it.dir).err != Nil ==> WorksOn(m.next, w.it.dir))
    && (forall p :: Opened(p) in m.events ==> WorksOn(m.next, p))
  }

  lemma EnterKeeps(cfg: Config, it: Item, log: seq<Event>)
    requires C.GoodItem(cfg, log, it)
    ensures var w := Entering(it);
            var m := Advance(cfg, w, log);
            Keeps(cfg, w, m, log) && Invents(cfg, w, m, log) && GoesOn(cfg, w, m)
  {
    EnterMoves(cfg, it, log);
  }

  lemma EntryKeeps(cfg: Config, w: Worker, log: seq<Event>)
    requires w.Reading? && w.rest != [] && C.GoodWorker(cfg, log, w)
    ensures var m := Advance(cfg, w, log);
            Keeps(cfg, w, m, log) && Invents(cfg, w, m, log) && GoesOn(cfg, w, m)
  {
    var c := EntryCall(w.it, w.rest[0]);
    assert Parent(c.path) == w.it.dir && c.path != cfg.root;
  }

  lemma EndKeeps(cfg: Config, w: Worker, log: seq<Event>)
    requires C.GoodWorker(cfg, log, w) && (w.Reporting? || (w.Reading? && w.rest == []))
    ensures var m := Advance(cfg, w, log);
            Keeps(cfg, w, m, log) && Invents(cfg, w, m, log) && GoesOn(cfg, w, m)
  {
  }

  lemma GoKeeps(cfg: Config, w: Worker, log: seq<Event>)
    requires Active(w) && C.GoodWorker(cfg, log, w)
    ensures var m := Advance(cfg, w, log);
            Keeps(cfg, w, m, log) && Invents(cfg, w, m, log) && GoesOn(cfg, w, m)
  {
    if w.Entering? {
      EnterKeeps(cfg, w.it, log);
    } else if w.Reporting? || w.rest == [] {
      EndKeeps(cfg, w, log);
    } else {
      EntryKeeps(cfg, w, log);
    }
  }

  // ----- the steps of the system

  /** An event of a longer log is one of the log, or one of those that are new. */
  lemma OldOrNew(cfg: Config, log: seq<Event>, more: seq<Event>, j: nat)
    requires j < |log + more| && (forall i :: 0 <= i < |more| && more[i].Called? ==> i == 0) && (log + more)[j].Called?
    ensures j < |log| ==> (log + more)[j] == log[j] && (log + more)[..j] == log[..j]
    ensures j >= |log| ==> j == |log| && (log + more)[j] == more[0] && (log + more)[..j] == log
  {
  }

  lemma GoKeepsResults(cfg: Config, s: State, i: nat)
    requires Enabled(cfg, s, Go(i)) && NothingLost(cfg, s)
    requires Keeps(cfg, s.workers[i], Advance(cfg, s.workers[i], s.log), s.log)
    ensures var s' := Apply(cfg, s, Go(i));
            forall j :: ResultAt(cfg, s'.log, j) ==> ErrorComes(s')
  {
    var s' := Apply(cfg, s, Go(i));
    var more := Advance(cfg, s.workers[i], s.log).events;
    forall j: nat | ResultAt(cfg, s'.log, j)
      ensures ErrorComes(s')
    {
      OldOrNew(cfg, s.log, more, j);
      if j < |s.log| {
        assert ResultAt(cfg, s.log, j);
        if k :| 0 <= k < |s.workers| && s.workers[k].Sending? && s.workers[k].res != Nil {
          assert s'.workers[k] == s.workers[k];
        }
      } else {
        assert s'.workers[i].Sending?;
      }
    }
  }

  lemma GoKeepsEnds(cfg: Config, s: State, i: nat)
    requires Enabled(cfg, s, Go(i)) && NothingLost(cfg, s)
    requires Keeps(cfg, s.workers[i], Advance(cfg, s.workers[i], s.log), s.log)
    requires GoesOn(cfg, s.workers[i], Advance(cfg, s.workers[i], s.log))
    ensures var s' := Apply(cfg, s, Go(i));
            forall j, p, x :: EndAt(cfg, s'.log, j, p, x) ==> ReportedAfter(s'.log, j, p, x) || Reports(s', p, x)
  {
    var s' := Apply(cfg, s, Go(i));
    var w, more := s.workers[i], Advance(cfg, s.workers[i], s.log).events;
    forall j: nat, p, x | EndAt(cfg, s'.log, j, p, x)
      ensures ReportedAfter(s'.log, j, p, x) || Reports(s', p, x)
    {
      OldOrNew(cfg, s.log, more, j);
      if j < |s.log| {
        assert EndAt(cfg, s.log, j, p, x);
        if k :| j < k && ReportAt(s.log, k, p, x) {
          LaterAt(cfg, s.log, more, k);
          assert ReportAt(s'.log, k, p, x);
        } else {
          var k :| 0 <= k < |s.workers| && s.workers[k].Reporting? && s.workers[k].it.dir == p && s.workers[k].err == x;
          if k == i {
            assert s'.log[|s.log|] == more[0];
            assert ReportAt(s'.log, |s.log|, p, x);
          } else {
            assert s'.workers[k] == s.workers[k];
          }
        }
      } else {
        assert s'.workers[i] == Reporting(w.it, x);
      }
    }
  }

  lemma GoKeepsReadings(cfg: Config, s: State, i: nat)
    requires Enabled(cfg, s, Go(i)) && NothingLost(cfg, s) && NothingMadeUp(cfg, s)
    requires GoesOn(cfg, s.workers[i], Advance(cfg, s.workers[i], s.log))
    ensures var s' := Apply(cfg, s, Go(i));
            forall p :: Opened(p) in s'.log && cfg.fs.list(p).err != Nil ==> SomeReport(s'.log, p) || InWork(s', p)
  {
    var s' := Apply(cfg, s, Go(i));
    var w, more := s.workers[i], Advance(cfg, s.workers[i], s.log).events;
    forall p | Opened(p) in s'.log && cfg.fs.list(p).err != Nil
      ensures SomeReport(s'.log, p) || InWork(s', p)
    {
      if Opened(p) in s.log {
        if j, x :| x != Nil && ReportAt(s.log, j, p, x) {
          LaterAt(cfg, s.log, more, j);
          assert ReportAt(s'.log, j, p, x);
        } else {
          var k :| 0 <= k < |s.workers| && WorksOn(s.workers[k], p);
          assert k != i ==> s'.workers[k] == s.workers[k];
          if k == i && w.Reporting? {
            assert Sincere(cfg, s.log, w) && s'.log[|s.log|] == more[0];
            assert ReportAt(s'.log, |s.log|, p, w.err);
          } else {
            assert WorksOn(s'.workers[k], p);
          }
        }
      } else {
        assert WorksOn(s'.workers[i], p);
      }
    }
  }

  lemma OtherKeepsErrors(cfg: Config, s: State, a: Action)
    requires Inv(cfg, s) && Enabled(cfg, s, a) && !a.Go? && ErrorComes(s)
    ensures ErrorComes(Apply(cfg, s, a))
  {
    var s' := Apply(cfg, s, a);
    if Failed(s) {
      FailedStays(cfg, s, a);
    } else if e :| e in s.resc && e != Nil {
      if a.Receive? && s.resc[0] == Nil {
        assert s.resc == [s.resc[0]] + s.resc[1..];
        assert e in s'.resc;
      } else if !a.Receive? {
        assert e in s'.resc;
      }
    } else {
      var i :| 0 <= i < |s.workers| && s.workers[i].Sending? && s.workers[i].res != Nil;
      if a == Deliver(i) {
        assert s.workers[i].res in s'.resc;
      } else {
        assert s'.workers[i] == s.workers[i];
      }
    }
  }

  /** Nobody but the worker that steps changes, and if it reads or reports, it goes on. */
  lemma OthersStay(cfg: Config, s: State, a: Action, i: nat, p: Path)
    requires Enabled(cfg, s, a) && !a.Go? && i < |s.workers|
    ensures s.workers[i].Reporting? ==> Apply(cfg, s, a).workers[i] == s.workers[i]
    ensures WorksOn(s.workers[i], p) ==> WorksOn(Apply(cfg, s, a).workers[i], p)
  {
  }

  lemma OtherLosesNothing(cfg: Config, s: State, a: Action)
    requires Inv(cfg, s) && Enabled(cfg, s, a) && !a.Go? && NothingLost(cfg, s)
    ensures NothingLost(cfg, Apply(cfg, s, a))
  {
    var s', more := Apply(cfg, s, a), NewEvents(cfg, s, a);
    LogGrows(cfg, s, a);
    forall j: nat | ResultAt(cfg, s'.log, j)
      ensures ErrorComes(s')
    {
      OldOrNew(cfg, s.log, more, j);
      assert ResultAt(cfg, s.log, j);
      OtherKeepsErrors(cfg, s, a);
    }
    forall j: nat, p, x | EndAt(cfg, s'.log, j, p, x)
      ensures ReportedAfter(s'.log, j, p, x) || Reports(s', p, x)
    {
      OldOrNew(cfg, s.log, more, j);
      assert EndAt(cfg, s.log, j, p, x);
      if k :| j < k && ReportAt(s.log, k, p, x) {
        LaterAt(cfg, s.log, more, k);
        assert ReportAt(s'.log, k, p, x);
      } else {
        var k :| 0 <= k < |s.workers| && s.workers[k].Reporting? && s.workers[k].it.dir == p && s.workers[k].err == x;
        OthersStay(cfg, s, a, k, p);
      }
    }
    forall p | Opened(p) in s'.log && cfg.fs.list(p).err != Nil
      ensures SomeReport(s'.log, p) || InWork(s', p)
    {
      assert Opened(p) in s.log;
      if j, x :| x != Nil && ReportAt(s.log, j, p, x) {
        LaterAt(cfg, s.log, more, j);
        assert ReportAt(s'.log, j, p, x);
      } else {
        var k :| 0 <= k < |s.workers| && WorksOn(s.workers[k], p);
        OthersStay(cfg, s, a, k, p);
      }
    }
  }

  // ----- nothing is made up

  lemma GoInventsNothing(cfg: Config, s: State, i: nat)
    requires Enabled(cfg, s, Go(i)) && NothingMadeUp(cfg, s)
    requires Invents(cfg, s.workers[i], Advance(cfg, s.workers[i], s.log), s.log)
    ensures NothingMadeUp(cfg, Apply(cfg, s, Go(i)))
  {
    var s', m := Apply(cfg, s, Go(i)), Advance(cfg, s.workers[i], s.log);
    SincereNext(cfg, s.workers[i], m, s.log);
    forall k | 0 <= k < |s'.workers|
      ensures Sincere(cfg, s'.log, s'.workers[k])
    {
      if k != i {
        SincereLater(cfg, s.log, m.events, s.workers[k]);
      }
    }
    forall e | e in s'.resc && e != Nil
      ensures WasAnswered(cfg, s'.log, e)
    {
      AnsweredLater(cfg, s.log, m.events, e);
    }
    if Failed(s') {
      AnsweredLater(cfg, s.log, m.events, s.coord.err);
    }
    assert Sincere(cfg, s.log, s.workers[i]);
    ReportsHaveReasons(cfg, s.workers[i], m, s.log);
  }

  /** The new state of the worker. */
  lemma SincereNext(cfg: Config, w: Worker, m: Move, log: seq<Event>)
    requires Active(w) && Invents(cfg, w, m, log)
    ensures Sincere(cfg, log + m.events, m.next)
  {
    var log' := log + m.events;
    if m.events != [] {
      assert log'[|log|] == m.events[0] && log'[..|log|] == log;
    }
    if m.next.Sending? && m.next.res != Nil {
      assert ResultAt(cfg, log', |log|);
    }
    if m.next.Reporting? && cfg.fs.list(w.it.dir).err != m.next.err {
      assert EndAt(cfg, log', |log|, w.it.dir, m.next.err);
    }
  }

  ghost predicate ReportsReasoned(cfg: Config, log: seq<Event>) {
    forall j, p, x :: x != Nil && ReportAt(log, j, p, x) ==> HasReason(cfg, log, p, x)
  }

  lemma ReportsHaveReasons(cfg: Config, w: Worker, m: Move, log: seq<Event>)
    requires Active(w) && Invents(cfg, w, m, log) && Sincere(cfg, log, w) && ReportsReasoned(cfg, log)
    ensures ReportsReasoned(cfg, log + m.events)
  {
    var log' := log + m.events;
    forall j: nat, p, x | x != Nil && ReportAt(log', j, p, x)
      ensures HasReason(cfg, log', p, x)
    {
      if j < |log| {
        assert ReportAt(log, j, p, x);
      } else {
        assert log'[j] == m.events[j - |log|];
      }
      ReasonLater(cfg, log, m.events, p, x);
    }
  }

  lemma OtherInventsNothing(cfg: Config, s: State, a: Action)
    requires Enabled(cfg, s, a) && !a.Go? && NothingMadeUp(cfg, s)
    ensures NothingMadeUp(cfg, Apply(cfg, s, a))
  {
    var s', more := Apply(cfg, s, a), NewEvents(cfg, s, a);
    LogGrows(cfg, s, a);
    forall k | 0 <= k < |s'.workers|
      ensures Sincere(cfg, s'.log, s'.workers[k])
    {
      SincereLater(cfg, s.log, more, s.workers[k]);
    }
    ResultsReasoned(cfg, s, a);
    forall j: nat, p, x | x != Nil && ReportAt(s'.log, j, p, x)
      ensures HasReason(cfg, s'.log, p, x)
    {
      assert ReportAt(s.log, j, p, x);
      ReasonLater(cfg, s.log, more, p, x);
    }
  }

  lemma ResultsReasoned(cfg: Config, s: State, a: Action)
    requires Enabled(cfg, s, a) && !a.Go? && NothingMadeUp(cfg, s)
    ensures var s' := Apply(cfg, s, a);
            && (forall e :: e in s'.resc && e != Nil ==> WasAnswered(cfg, s'.log, e))
            && (Failed(s') ==> WasAnswered(cfg, s'.log, s'.coord.err))
  {
    var s', more := Apply(cfg, s, a), NewEvents(cfg, s, a);
    LogGrows(cfg, s, a);
    assert a.Deliver? ==> Sincere(cfg, s.log, s.workers[a.i]);
    forall e | e != Nil && (e in s'.resc || (Failed(s') && e == s'.coord.err))
      ensures WasAnswered(cfg, s'.log, e)
    {
      AnsweredLater(cfg, s.log, more, e);
    }
  }

  // ----- runs

  ghost predicate ErrorInv(cfg: Config, s: State) {
    Inv(cfg, s) && C.GoodState(cfg, s) && NothingLost(cfg, s) && NothingMadeUp(cfg, s)
  }

  lemma StepErrors(cfg: Config, s: State, a: Action)
    requires cfg.numWorkers >= 1 && ErrorInv(cfg, s) && Enabled(cfg, s, a)
    ensures ErrorInv(cfg, Apply(cfg, s, a))
  {
    StepInv(cfg, s, a);
    C.StepGood(cfg, s, a);
    if a.Go? {
      assert C.GoodWorkers(cfg, s.log)(s.workers[a.i]);
      GoKeeps(cfg, s.workers[a.i], s.log);
      GoKeepsResults(cfg, s, a.i);
      GoKeepsEnds(cfg, s, a.i);
      GoKeepsReadings(cfg, s, a.i);
      GoInventsNothing(cfg, s, a.i);
    } else {
      OtherLosesNothing(cfg, s, a);
      OtherInventsNothing(cfg, s, a);
    }
  }

  lemma {:induction false} RunErrors(cfg: Config, s: State, acts: seq<Action>, s': State)
    requires cfg.numWorkers >= 1 && ErrorInv(cfg, s) && Run(cfg, s, acts, s')
    ensures ErrorInv(cfg, s')
    decreases |acts|
  {
    if acts != [] {
      StepErrors(cfg, s, acts[0]);
      RunErrors(cfg, Apply(cfg, s, acts[0]), acts[1..], s');
    }
  }

  lemma InitErrors(cfg: Config, root: Item)
    requires Starts(cfg, root)
    ensures ErrorInv(cfg, Init(cfg))
  {
    InitInv(cfg);
    C.InitGood(cfg);
  }

  // ----- what it means

  /** If Walk returns nil, in whatever run of whatever callback, every report of an error was answered with
      nil, and the call for every directory with nil or SkipDir. */
  lemma NilMeansNoResult(cfg: Config, root: Item, acts: seq<Action>, s: State, j: nat)
    requires Starts(cfg, root) && Run(cfg, Init(cfg), acts, s) && s.coord == Returned(Nil)
    requires j < |s.log| && s.log[j].Called?
    ensures s.log[j].call.err != Nil ==> AnswerAt(cfg, s.log, j) == Nil
    ensures ForDirectory(cfg.root, s.log[j].call) ==>
              AnswerAt(cfg, s.log, j) == Nil || AnswerAt(cfg, s.log, j) == SkipDir
  {
    InitErrors(cfg, root);
    RunErrors(cfg, Init(cfg), acts, s);
    assert ResultAt(cfg, s.log, j) ==> ErrorComes(s);
  }

  /** ... every answer to the call for another entry that is an error has been reported after it... */
  lemma NilMeansReported(cfg: Config, root: Item, acts: seq<Action>, s: State, j: nat)
    requires Starts(cfg, root) && Run(cfg, Init(cfg), acts, s) && s.coord == Returned(Nil)
    requires j < |s.log| && s.log[j].Called? && ForEntry(cfg.root, s.log[j].call)
    requires EndsReading(s.log[j].call, AnswerAt(cfg, s.log, j))
    ensures ReportedAfter(s.log, j, Parent(s.log[j].call.path), AnswerAt(cfg, s.log, j))
  {
    InitErrors(cfg, root);
    RunErrors(cfg, Init(cfg), acts, s);
    assert EndAt(cfg, s.log, j, Parent(s.log[j].call.path), AnswerAt(cfg, s.log, j));
  }

  /** ... and so has an error of each directory that was opened and whose listing ends in one. */
  lemma NilMeansReadErrorReported(cfg: Config, root: Item, acts: seq<Action>, s: State, p: Path)
    requires Starts(cfg, root) && Run(cfg, Init(cfg), acts, s) && s.coord == Returned(Nil)
    requires Opened(p) in s.log && cfg.fs.list(p).err != Nil
    ensures SomeReport(s.log, p)
  {
    InitErrors(cfg, root);
    RunErrors(cfg, Init(cfg), acts, s);
  }

  /** An error that Walk returns is one that the callback answered to the call for a directory or to a
      report. */
  lemma ReturnedWasAnswered(cfg: Config, root: Item, acts: seq<Action>, s: State)
    requires Starts(cfg, root) && Run(cfg, Init(cfg), acts, s) && s.coord.Returned? && s.coord.err != Nil
    ensures WasAnswered(cfg, s.log, s.coord.err)
  {
    InitErrors(cfg, root);
    RunErrors(cfg, Init(cfg), acts, s);
  }

  /** An error that is reported is the one that the listing of the directory ends in, or one that the
      callback answered to the call for an entry. */
  lemma ReportedHasReason(cfg: Config, root: Item, acts: seq<Action>, s: State, j: nat)
    requires Starts(cfg, root) && Run(cfg, Init(cfg), acts, s)
    requires j < |s.log| && s.log[j].Called? && s.log[j].call.err != Nil
    ensures HasReason(cfg, s.log, s.log[j].call.path, s.log[j].call.err)
  {
    InitErrors(cfg, root);
    RunErrors(cfg, Init(cfg), acts, s);
    assert ReportAt(s.log, j, s.log[j].call.path, s.log[j].call.err);
  }
}
