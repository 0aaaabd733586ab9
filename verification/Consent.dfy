/** What the answers of the callback mean for a run: nothing is read without its consent, and what it
    prunes stays pruned. */
module Consent {
  import opened Entries
  import opened Protocol
  import opened Ledger
  import opened Ownership
  import Paths

  /** The answer `r` to the call `c` has a directory read: nil for a directory and for the root; for a
      link ErrTraverseLink, or with Follow nil, too, if the link leads to no ancestor. */
  predicate Permits(cfg: Config, c: Call, r: Error) {
    if c.typ != Symlink || c.path == cfg.root then r == Nil
    else if cfg.follow then (r == Nil || r == TraverseLink) && ShouldTraverse(cfg, c.path)
    else r == TraverseLink
  }

  /** The callback has been called for `p` without an error, and its answer permits to read `p`. */
  ghost predicate Allowed(cfg: Config, log: seq<Event>, p: Path) {
    exists i :: 0 <= i < |log| && AllowedAt(cfg, log, p, i)
  }

  ghost predicate AllowedAt(cfg: Config, log: seq<Event>, p: Path, i: nat)
    requires i < |log|
  {
    && log[i].Called?
    && log[i].call.path == p && log[i].call.err == Nil
    && Permits(cfg, log[i].call, cfg.fn(log[..i], log[i].call))
  }

  /** `p` is an entry of type `typ` in a directory that has been opened. */
  ghost predicate Found(cfg: Config, log: seq<Event>, p: Path, typ: FileType) {
    && p != []
    && Opened(Parent(p)) in log
    && DirEnt(p[|p| - 1], typ) in cfg.fs.list(Parent(p)).entries
  }

  // ----- the invariant

  ghost predicate GoodItem(cfg: Config, log: seq<Event>, it: Item) {
    && IsPrefix(cfg.root, it.dir)
    && (it.dir != cfg.root ==> Found(cfg, log, it.dir, it.typ))
    && (if it.callbackDone then Allowed(cfg, log, it.dir) else it.typ == Directory || it.dir == cfg.root)
  }

  ghost predicate IsReading(cfg: Config, log: seq<Event>, it: Item, rest: seq<DirEnt>) {
    && GoodItem(cfg, log, it)
    && Opened(it.dir) in log
    && forall e :: e in rest ==> e in cfg.fs.list(it.dir).entries
  }

  ghost predicate GoodWorker(cfg: Config, log: seq<Event>, w: Worker) {
    match w
    case Entering(it) => GoodItem(cfg, log, it)
    case Reading(it, rest, _) => IsReading(cfg, log, it, rest)
    case Enqueueing(it, rest, _, pending) => IsReading(cfg, log, it, rest) && GoodItem(cfg, log, pending)
    case Reporting(it, err) => IsReading(cfg, log, it, []) && err != Nil
    case _ => true
  }

  /** The event `e` is justified by what was logged before it. */
  ghost predicate Justified(cfg: Config, log: seq<Event>, e: Event) {
    match e
    case Picked(_) => true
    case Opened(p) => Allowed(cfg, log, p)
    case Called(c) =>
      if c.err != Nil then Opened(c.path) in log
      else c.path != cfg.root ==> Found(cfg, log, c.path, c.typ)
  }

  ghost predicate GoodLog(cfg: Config, log: seq<Event>) {
    forall j :: 0 <= j < |log| ==> Justified(cfg, log[..j], log[j])
  }

  ghost function GoodItems(cfg: Config, log: seq<Event>): Item -> bool {
    (it: Item) => GoodItem(cfg, log, it)
  }

  ghost function GoodWorkers(cfg: Config, log: seq<Event>): Worker -> bool {
    (w: Worker) => GoodWorker(cfg, log, w)
  }

  ghost predicate GoodState(cfg: Config, s: State) {
    GoodLog(cfg, s.log) && Everywhere(s, GoodItems(cfg, s.log), GoodWorkers(cfg, s.log))
  }

  // ----- a longer log

  lemma AllowedLater(cfg: Config, log: seq<Event>, more: seq<Event>, p: Path)
    requires Allowed(cfg, log, p)
    ensures Allowed(cfg, log + more, p)
  {
    var i :| 0 <= i < |log| && AllowedAt(cfg, log, p, i);
    assert (log + more)[..i] == log[..i];
    assert AllowedAt(cfg, log + more, p, i);
  }

  lemma ItemLater(cfg: Config, log: seq<Event>, more: seq<Event>, it: Item)
    requires GoodItem(cfg, log, it)
    ensures GoodItem(cfg, log + more, it)
  {
    if it.callbackDone {
      AllowedLater(cfg, log, more, it.dir);
    }
  }

  lemma WorkerLater(cfg: Config, log: seq<Event>, more: seq<Event>, w: Worker)
    requires GoodWorker(cfg, log, w)
    ensures GoodWorker(cfg, log + more, w)
  {
    match w {
      case Entering(it) => ItemLater(cfg, log, more, it);
      case Reading(it, _, _) => ItemLater(cfg, log, more, it);
      case Enqueueing(it, _, _, pending) =>
        ItemLater(cfg, log, more, it);
        ItemLater(cfg, log, more, pending);
      case Reporting(it, _) => ItemLater(cfg, log, more, it);
      case _ =>
    }
  }

  lemma LogLonger(cfg: Config, log: seq<Event>, e: Event)
    requires GoodLog(cfg, log) && Justified(cfg, log, e)
    ensures GoodLog(cfg, log + [e])
  {
    var log' := log + [e];
    forall j | 0 <= j < |log'|
      ensures Justified(cfg, log'[..j], log'[j])
    {
      assert log'[..j] == log[..j];
      assert log[..|log|] == log;
    }
  }

  // ----- the steps of a worker

  /** A call that was just made and permits to read. */
  lemma AllowedNow(cfg: Config, log: seq<Event>, c: Call)
    requires c.err == Nil && Permits(cfg, c, cfg.fn(log, c))
    ensures Allowed(cfg, log + [Called(c)], c.path)
  {
    assert (log + [Called(c)])[..|log|] == log;
    assert AllowedAt(cfg, log + [Called(c)], c.path, |log|);
  }

  ghost predicate GoodMove(cfg: Config, log: seq<Event>, m: Move) {
    GoodLog(cfg, log + m.events) && GoodWorker(cfg, log + m.events, m.next)
  }

  /** After the callback: the depth check and the opening of the directory. */
  lemma OpenGood(cfg: Config, it: Item, log: seq<Event>)
    requires GoodLog(cfg, log) && GoodItem(cfg, log, it) && Allowed(cfg, log, it.dir)
    ensures GoodMove(cfg, log, Move(Open(cfg, it), OpenEvents(cfg, it)))
  {
    if DepthLimited(cfg, it) {
      assert log + [] == log;
    } else {
      LogLonger(cfg, log, Opened(it.dir));
      ItemLater(cfg, log, [Opened(it.dir)], it);
    }
  }

  lemma EnterGood(cfg: Config, it: Item, log: seq<Event>)
    requires GoodLog(cfg, log) && GoodItem(cfg, log, it)
    ensures GoodMove(cfg, log, Advance(cfg, Entering(it), log))
  {
    if it.callbackDone {
      OpenGood(cfg, it, log);
    } else {
      var c := ItemCall(it, Nil);
      LogLonger(cfg, log, Called(c));
      if cfg.fn(log, c) == Nil {
        AllowedNow(cfg, log, c);
        ItemLater(cfg, log, [Called(c)], it);
        OpenGood(cfg, it, log + [Called(c)]);
        assert log + [Called(c)] + OpenEvents(cfg, it) == log + ([Called(c)] + OpenEvents(cfg, it));
      }
    }
  }

  /** What onDirEnt queues. */
  lemma ChildGood(cfg: Config, w: Worker, log: seq<Event>)
    requires w.Reading? && w.rest != [] && IsReading(cfg, log, w.it, w.rest)
    ensures var e := w.rest[0];
            var c := EntryCall(w.it, e);
            && Found(cfg, log, c.path, c.typ) && |c.path| > |cfg.root|
            && (e.typ == Directory ==> GoodItem(cfg, log, ChildItem(w.it, e)))
            && (Decide(cfg, e.typ, c.path, cfg.fn(log, c)).enqueue ==>
                  GoodItem(cfg, log + [Called(c)], ChildItem(w.it, e)))
  {
    var e := w.rest[0];
    var c := EntryCall(w.it, e);
    assert e in w.rest && Parent(c.path) == w.it.dir;
    if Decide(cfg, e.typ, c.path, cfg.fn(log, c)).enqueue {
      AllowedNow(cfg, log, c);
    }
  }

  lemma TailRead(cfg: Config, log: seq<Event>, it: Item, rest: seq<DirEnt>)
    requires IsReading(cfg, log, it, rest) && rest != []
    ensures IsReading(cfg, log, it, rest[1..])
  {
    assert forall e :: e in rest[1..] ==> e in rest;
  }

  /** An entry the callback is called for. */
  lemma CalledMoves(cfg: Config, w: Worker, log: seq<Event>)
    requires w.Reading? && w.rest != []
    requires w.rest[0].typ != Directory && !(w.skipFiles && w.rest[0].typ == Regular)
    ensures var m, e, c := Advance(cfg, w, log), w.rest[0], EntryCall(w.it, w.rest[0]);
            && m.events == [Called(c)]
            && (|| (m.next.Reporting? && m.next.it == w.it && m.next.err != Nil)
                || (m.next.Reading? && m.next.it == w.it && m.next.rest == w.rest[1..])
                || (m.next.Enqueueing? && m.next.it == w.it && m.next.rest == w.rest[1..]
                    && m.next.pending == ChildItem(w.it, e)
                    && Decide(cfg, e.typ, c.path, cfg.fn(log, c)).enqueue))
  {
  }

  lemma CalledEntryGood(cfg: Config, w: Worker, log: seq<Event>)
    requires GoodLog(cfg, log) && w.Reading? && w.rest != [] && GoodWorker(cfg, log, w)
    requires w.rest[0].typ != Directory && !(w.skipFiles && w.rest[0].typ == Regular)
    ensures GoodMove(cfg, log, Advance(cfg, w, log))
  {
    var c := EntryCall(w.it, w.rest[0]);
    CalledMoves(cfg, w, log);
    ChildGood(cfg, w, log);
    LogLonger(cfg, log, Called(c));
    WorkerLater(cfg, log, [Called(c)], w);
    TailRead(cfg, log + [Called(c)], w.it, w.rest);
  }

  lemma ReadGood(cfg: Config, w: Worker, log: seq<Event>)
    requires GoodLog(cfg, log) && w.Reading? && GoodWorker(cfg, log, w)
    ensures GoodMove(cfg, log, Advance(cfg, w, log))
  {
    assert log + [] == log;
    if w.rest != [] {
      TailRead(cfg, log, w.it, w.rest);
      if w.rest[0].typ == Directory || (w.skipFiles && w.rest[0].typ == Regular) {
        ChildGood(cfg, w, log);
      } else {
        CalledEntryGood(cfg, w, log);
      }
    }
  }

  lemma GoGood(cfg: Config, w: Worker, log: seq<Event>)
    requires GoodLog(cfg, log) && Active(w) && GoodWorker(cfg, log, w)
    ensures GoodMove(cfg, log, Advance(cfg, w, log))
  {
    match w {
      case Entering(it) => EnterGood(cfg, it, log);
      case Reading(_, _, _) => ReadGood(cfg, w, log);
      case Reporting(it, err) => LogLonger(cfg, log, Called(ItemCall(it, err)));
    }
  }

  // ----- runs

  lemma AllLater(cfg: Config, s: State, log: seq<Event>, more: seq<Event>)
    requires Everywhere(s, GoodItems(cfg, log), GoodWorkers(cfg, log))
    ensures Everywhere(s, GoodItems(cfg, log + more), GoodWorkers(cfg, log + more))
  {
    forall x | GoodItems(cfg, log)(x)
      ensures GoodItems(cfg, log + more)(x)
    {
      ItemLater(cfg, log, more, x);
    }
    forall w | GoodWorkers(cfg, log)(w)
      ensures GoodWorkers(cfg, log + more)(w)
    {
      WorkerLater(cfg, log, more, w);
    }
  }

  lemma StepGood(cfg: Config, s: State, a: Action)
    requires Enabled(cfg, s, a) && GoodState(cfg, s)
    ensures GoodState(cfg, Apply(cfg, s, a))
  {
    if a.Go? {
      assert GoodWorkers(cfg, s.log)(s.workers[a.i]);
      GoGood(cfg, s.workers[a.i], s.log);
      AllLater(cfg, s, s.log, Advance(cfg, s.workers[a.i], s.log).events);
    } else {
      ChannelKeeps(cfg, s, a, GoodItems(cfg, s.log), GoodWorkers(cfg, s.log));
      if a.Take? {
        LogLonger(cfg, s.log, Picked(s.workc[0]));
        AllLater(cfg, Apply(cfg, s, a), s.log, [Picked(s.workc[0])]);
      }
    }
  }

  lemma {:induction false} RunGood(cfg: Config, s: State, acts: seq<Action>, t: State)
    requires GoodState(cfg, s) && Run(cfg, s, acts, t)
    ensures GoodState(cfg, t) && IsPrefix(s.log, t.log)
    decreases |acts|
  {
    if acts == [] {
    } else {
      var s' := Apply(cfg, s, acts[0]);
      StepGood(cfg, s, acts[0]);
      LogGrows(cfg, s, acts[0]);
      RunGood(cfg, s', acts[1..], t);
      assert t.log[..|s.log|] == t.log[..|s'.log|][..|s.log|];
    }
  }

  lemma InitGood(cfg: Config)
    ensures GoodState(cfg, Init(cfg))
  {
  }

  // ----- what it means

  /** Whatever the callback is: a directory is only opened after a call for its path that was answered
      so as to permit it. */
  lemma OpenedWithConsent(cfg: Config, acts: seq<Action>, s: State, j: nat)
    requires Run(cfg, Init(cfg), acts, s) && j < |s.log| && s.log[j].Opened?
    ensures Allowed(cfg, s.log[..j], s.log[j].dir)
  {
    RunGood(cfg, Init(cfg), acts, s);
  }

  /** A call is only made for the root, for an entry of a directory opened before, or to report an
      error of such a directory. */
  lemma CalledForFound(cfg: Config, acts: seq<Action>, s: State, j: nat)
    requires Run(cfg, Init(cfg), acts, s) && j < |s.log| && s.log[j].Called?
    ensures var c := s.log[j].call;
            if c.err != Nil then Opened(c.path) in s.log[..j]
            else c.path == cfg.root || Found(cfg, s.log[..j], c.path, c.typ)
  {
    RunGood(cfg, Init(cfg), acts, s);
  }

  lemma OpenedParent(cfg: Config, log: seq<Event>, q: Path)
    requires GoodLog(cfg, log) && Opened(q) in log && q != cfg.root
    ensures q != [] && Opened(Parent(q)) in log
  {
    var j :| 0 <= j < |log| && log[j] == Opened(q);
    assert Justified(cfg, log[..j], log[j]);
    var i :| 0 <= i < |log[..j]| && AllowedAt(cfg, log[..j], q, i);
    assert Justified(cfg, log[..i], log[i]);
  }

  /** What lies above an opened directory, up to the root, has been opened. */
  lemma {:induction false} OpenedAbove(cfg: Config, log: seq<Event>, p: Path, q: Path)
    requires GoodLog(cfg, log) && Opened(q) in log && IsPrefix(p, q) && |cfg.root| <= |p|
    ensures Opened(p) in log
    decreases |q|
  {
    if p != q {
      OpenedParent(cfg, log, q);
      OpenedAbove(cfg, log, p, Parent(q));
    }
  }

  /** The call that permitted an opening. */
  lemma PermittingCall(cfg: Config, log: seq<Event>, p: Path) returns (i: nat)
    requires GoodLog(cfg, log) && Opened(p) in log
    ensures i < |log| && AllowedAt(cfg, log, p, i)
  {
    var k :| 0 <= k < |log| && log[k] == Opened(p);
    assert Justified(cfg, log[..k], log[k]);
    i :| 0 <= i < |log[..k]| && AllowedAt(cfg, log[..k], p, i);
    assert log[..k][..i] == log[..i];
  }

  /** A call below `p` needs `p` to have been opened. */
  lemma CalledBelow(cfg: Config, log: seq<Event>, p: Path, j: nat)
    requires GoodLog(cfg, log) && |cfg.root| <= |p|
    requires j < |log| && log[j].Called? && StrictPrefix(p, log[j].call.path)
    ensures Opened(p) in log
  {
    var c := log[j].call;
    assert Justified(cfg, log[..j], log[j]);
    OpenedAbove(cfg, log, p, if c.err == Nil then Parent(c.path) else c.path);
  }

  lemma SameCall(cfg: Config, acts: seq<Action>, s: State, i: nat, j: nat)
    requires UniquelyNamed(cfg.fs) && Run(cfg, Init(cfg), acts, s)
    requires i < |s.log| && s.log[i].Called? && s.log[i].call.err == Nil
    requires j < |s.log| && s.log[j].Called? && s.log[j].call.err == Nil
    requires s.log[i].call.path == s.log[j].call.path
    ensures i == j
  {
    if i < j {
      CallsAreDistinct(cfg, acts, s, i, j);
    } else if j < i {
      CallsAreDistinct(cfg, acts, s, j, i);
    }
  }

  /** What the callback prunes stays pruned: if a call without an error is answered so as not to
      permit reading, with SkipDir for instance, then no call is ever made below its path, by any
      worker, before or after. */
  lemma PrunedStaysPruned(cfg: Config, acts: seq<Action>, s: State, i: nat, j: nat)
    requires UniquelyNamed(cfg.fs) && Run(cfg, Init(cfg), acts, s)
    requires i < |s.log| && s.log[i].Called? && s.log[i].call.err == Nil
    requires !Permits(cfg, s.log[i].call, cfg.fn(s.log[..i], s.log[i].call))
    requires j < |s.log| && s.log[j].Called?
    ensures !StrictPrefix(s.log[i].call.path, s.log[j].call.path)
  {
    var p := s.log[i].call.path;
    if StrictPrefix(p, s.log[j].call.path) {
      RunGood(cfg, Init(cfg), acts, s);
      assert s.log[i] == Called(s.log[i].call) && s.log[i] in s.log;
      Paths.BelowRoot(cfg, acts, s, p);
      CalledBelow(cfg, s.log, p, j);
      var k := PermittingCall(cfg, s.log, p);
      SameCall(cfg, acts, s, i, k);
    }
  }
}
