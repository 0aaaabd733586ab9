/** A run of a walk with IgnoreDuplicateDirs can be mimicked by one without Follow, without a depth limit
    and with a worker for every item, on any files that look alike: the inner callback gets the same calls
    and cannot tell the difference. */
module Mimic {
  import opened Entries
  import opened Protocol
  import opened Ledger
  import opened Graph
  import opened GraphSearch
  import opened AtMostOnce
  import opened Regraft

  /** Two walks with the same inner callback and the same root; nothing limits the second. */
  ghost predicate Twins(t: Search, t': Search) {
    && Wraps(t) && Wraps(t') && t.kind.Dirs? && t'.kind.Dirs?
    && t'.inner == t.inner && t'.cfg.root == t.cfg.root
    && Unlimited(t'.cfg) && t'.cfg.numWorkers >= 1
  }

  /** The adapters remember the same. */
  ghost predicate SameMemory(t: Search, log: seq<Event>, t': Search, log': seq<Event>) {
    Memory(t, log) == Memory(t', log')
  }

  // ----- the step of one worker

  lemma SameCall(t: Search, log: seq<Event>, t': Search, log': seq<Event>, c: Call)
    requires Twins(t, t') && SameMemory(t, log, t', log') && Alike(t.g, t'.g, c.path)
    ensures t'.cfg.fn(log', c) == t.cfg.fn(log, c)
    ensures SameMemory(t, log + [Called(c)], t', log' + [Called(c)])
  {
    CallMemory(t, log, c);
    CallMemory(t', log', c);
    assert t.cfg.fs.stat(c.path) == Stat(t.g, c.path) == Stat(t'.g, c.path) == t'.cfg.fs.stat(c.path);
  }

  /** The parts a worker's state consists of: an item it enqueues counts as handled by another. */
  ghost function Parts(x: Worker): Worker -> nat {
    (w: Worker) =>
      match w
      case Enqueueing(it, rest, skipFiles, pending) =>
        (if Reading(it, rest, skipFiles) == x then 1 else 0) + (if Entering(pending) == x then 1 else 0)
      case Idle => 0
      case Exited => 0
      case Sending(_) => 0
      case _ => if w == x then 1 else 0
  }

  ghost function Waits(x: Worker): Item -> nat {
    (it: Item) => if Entering(it) == x then 1 else 0
  }

  /** The second move is as good as the first. */
  ghost predicate Matches(t: Search, log: seq<Event>, m: Move, t': Search, log': seq<Event>, m': Move) {
    && SameMemory(t, log + m.events, t', log' + m'.events)
    && forall x :: Active(x) ==> Parts(x)(m.next) <= Parts(x)(m'.next)
  }

  lemma SameOpen(t: Search, log: seq<Event>, t': Search, log': seq<Event>, it: Item)
    requires Twins(t, t') && SameMemory(t, log, t', log') && Alike(t.g, t'.g, it.dir)
    ensures Matches(t, log, Move(Open(t.cfg, it), OpenEvents(t.cfg, it)),
                    t', log', Move(Open(t'.cfg, it), OpenEvents(t'.cfg, it)))
  {
    OtherEventsClaimNothing(t, log, Opened(it.dir));
    OtherEventsClaimNothing(t', log', Opened(it.dir));
    assert log + [] == log && log' + [] == log';
    assert t.cfg.fs.list(it.dir) == List(t.g, it.dir) == List(t'.g, it.dir) == t'.cfg.fs.list(it.dir);
  }

  lemma SameNew(t: Search, log: seq<Event>, t': Search, log': seq<Event>, it: Item)
    requires Twins(t, t') && SameMemory(t, log, t', log') && Alike(t.g, t'.g, it.dir)
    ensures var c := ItemCall(it, Nil);
            Matches(t, log, Move(Open(t.cfg, it), [Called(c)] + OpenEvents(t.cfg, it)),
                    t', log', Move(Open(t'.cfg, it), [Called(c)] + OpenEvents(t'.cfg, it)))
  {
    var c := ItemCall(it, Nil);
    SameCall(t, log, t', log', c);
    SameOpen(t, log + [Called(c)], t', log' + [Called(c)], it);
    assert log + [Called(c)] + OpenEvents(t.cfg, it) == log + ([Called(c)] + OpenEvents(t.cfg, it));
    assert log' + [Called(c)] + OpenEvents(t'.cfg, it) == log' + ([Called(c)] + OpenEvents(t'.cfg, it));
  }

  lemma SameEnter(t: Search, log: seq<Event>, t': Search, log': seq<Event>, it: Item)
    requires Twins(t, t') && SameMemory(t, log, t', log') && Alike(t.g, t'.g, it.dir)
    ensures Matches(t, log, Advance(t.cfg, Entering(it), log), t', log', Advance(t'.cfg, Entering(it), log'))
  {
    EnterMoves(t.cfg, it, log);
    EnterMoves(t'.cfg, it, log');
    if it.callbackDone {
      SameOpen(t, log, t', log', it);
    } else {
      SameCall(t, log, t', log', ItemCall(it, Nil));
      SameNew(t, log, t', log', it);
    }
  }

  /** A link to what is no directory is not followed, and one to a directory not without being asked. */
  lemma NotFollowedOnNil(t: Search, log: seq<Event>, c: Call)
    requires Wraps(t) && c.typ == Symlink && c.err == Nil && t.cfg.fn(log, c) == Nil
    ensures !ShouldTraverse(t.cfg, c.path)
  {
    CallClaims(t, log, c);
    assert t.cfg.fs.stat(c.path) == Stat(t.g, c.path);
  }

  /** The decisions on the same answer: with Follow a link may be passed over that is queued without. */
  lemma SameDecision(t: Search, log: seq<Event>, t': Search, c: Call)
    requires Twins(t, t') && c.err == Nil
    ensures var d := Decide(t.cfg, c.typ, c.path, t.cfg.fn(log, c));
            var d' := Decide(t'.cfg, c.typ, c.path, t.cfg.fn(log, c));
            d == d' || (d == Decision(false, Nil) && d'.enqueue)
  {
    if c.typ == Symlink && t.cfg.fn(log, c) == Nil {
      NotFollowedOnNil(t, log, c);
    }
  }

  /** The entry `w.rest[0]`, once it has been decided on. */
  function Decided(w: Worker, d: Decision): Worker
    requires w.Reading? && w.rest != []
  {
    if d.enqueue then Enqueueing(w.it, w.rest[1..], w.skipFiles, ChildItem(w.it, w.rest[0]))
    else if d.err == Nil then Reading(w.it, w.rest[1..], w.skipFiles)
    else if d.err == SkipFiles then Reading(w.it, w.rest[1..], true)
    else Reporting(w.it, d.err)
  }

  lemma EntryDecided(cfg: Config, w: Worker, log: seq<Event>)
    requires w.Reading? && w.rest != []
    ensures var m, e, c := Advance(cfg, w, log), w.rest[0], EntryCall(w.it, w.rest[0]);
            if w.skipFiles && e.typ == Regular then m == Move(Decided(w, Decision(false, Nil)), [])
            else if e.typ == Directory then m == Move(Decided(w, Decision(true, Nil)), [])
            else m == Move(Decided(w, Decide(cfg, e.typ, c.path, cfg.fn(log, c))), [Called(c)])
  {
  }

  lemma SameEntry(t: Search, log: seq<Event>, t': Search, log': seq<Event>, w: Worker)
    requires Twins(t, t') && SameMemory(t, log, t', log')
    requires w.Reading? && w.rest != [] && Alike(t.g, t'.g, w.it.dir + [w.rest[0].name])
    ensures Matches(t, log, Advance(t.cfg, w, log), t', log', Advance(t'.cfg, w, log'))
  {
    var c := EntryCall(w.it, w.rest[0]);
    EntryDecided(t.cfg, w, log);
    EntryDecided(t'.cfg, w, log');
    if c.typ == Directory || (w.skipFiles && c.typ == Regular) {
      assert log + [] == log && log' + [] == log';
    } else {
      SameCall(t, log, t', log', c);
      SameDecision(t, log, t', c);
    }
  }

  lemma SameGo(t: Search, log: seq<Event>, t': Search, log': seq<Event>, w: Worker)
    requires Twins(t, t') && SameMemory(t, log, t', log') && Active(w) && Alike(t.g, t'.g, w.it.dir)
    requires w.Reading? && w.rest != [] ==> Alike(t.g, t'.g, w.it.dir + [w.rest[0].name])
    ensures Matches(t, log, Advance(t.cfg, w, log), t', log', Advance(t'.cfg, w, log'))
  {
    match w {
      case Entering(it) => SameEnter(t, log, t', log', it);
      case Reading(it, rest, _) =>
        if rest == [] {
          assert log + [] == log && log' + [] == log';
          assert t.cfg.fs.list(it.dir) == List(t.g, it.dir) == List(t'.g, it.dir) == t'.cfg.fs.list(it.dir);
        } else {
          SameEntry(t, log, t', log', w);
        }
      case Reporting(it, err) => SameCall(t, log, t', log', ItemCall(it, err));
    }
  }

  // ----- a worker for every item

  ghost function Is(x: Worker): Worker -> nat {
    (w: Worker) => if w == x then 1 else 0
  }

  /** No item waits, and `idle` workers are idle. */
  ghost predicate Eager(s: State, idle: nat) {
    && s.coord.Selecting? && s.todo == [] && s.workc == [] && s.enqueuec == []
    && Sum(s.workers, Is(Idle)) >= idle
  }

  /** What is done and waiting in `s` is being done in `s'`. */
  ghost predicate Covered(s: State, s': State) {
    forall x :: Active(x) ==> Total(s, Waits(x), Parts(x)) <= Sum(s'.workers, Is(x))
  }

  lemma PartsPassedOn(x: Worker)
    ensures PassedOn(Waits(x), Parts(x))
  {
  }

  /** An item is taken as soon as it is enqueued, by an idle worker `f`. */
  lemma Spawn(cfg: Config, acts: seq<Action>, s: State, j: nat, idle: nat)
    returns (acts': seq<Action>, s': State, f: nat)
    requires Run(cfg, Init(cfg), acts, s) && Eager(s, idle) && idle > 0 && cfg.numWorkers >= 1
    requires j < |s.workers| && s.workers[j].Enqueueing?
    ensures Run(cfg, Init(cfg), acts', s')
    ensures var w := s.workers[j];
            && f < |s.workers| && s.workers[f].Idle?
            && s'.workers == s.workers[j := Reading(w.it, w.rest, w.skipFiles)][f := Entering(w.pending)]
            && s'.log == s.log + [Picked(w.pending)]
            && s'.coord.Selecting? && s'.todo == [] && s'.workc == [] && s'.enqueuec == []
  {
    f := SumWitness(s.workers, Is(Idle));
    var s1;
    acts', s1 := Queue(cfg, acts, s, j);
    assert s1.todo == [s.workers[j].pending];
    acts', s' := TakeFirst(cfg, acts', s1, s.workers[j].pending, f);
  }

  /** The counts after it. */
  lemma SpawnCounts(ws: seq<Worker>, j: nat, f: nat, x: Worker)
    requires j < |ws| && f < |ws| && ws[j].Enqueueing? && ws[f].Idle?
    ensures var w := ws[j];
            var ws' := ws[j := Reading(w.it, w.rest, w.skipFiles)][f := Entering(w.pending)];
            && (Active(x) ==> Sum(ws', Is(x)) == Sum(ws, Is(x)) + Parts(x)(w))
            && Sum(ws', Is(Idle)) == Sum(ws, Is(Idle)) - 1
  {
    var w := ws[j];
    var read := Reading(w.it, w.rest, w.skipFiles);
    SumUpdate(ws, j, read, Is(x));
    SumUpdate(ws[j := read], f, Entering(w.pending), Is(x));
    SumUpdate(ws, j, read, Is(Idle));
    SumUpdate(ws[j := read], f, Entering(w.pending), Is(Idle));
  }

  /** The move of worker `j`, and the taking of what it enqueues. */
  lemma MoveEagerly(cfg: Config, acts: seq<Action>, s: State, j: nat, idle: nat) returns (acts': seq<Action>, s': State)
    requires Run(cfg, Init(cfg), acts, s) && Eager(s, idle) && idle > 0 && cfg.numWorkers >= 1
    requires j < |s.workers| && Active(s.workers[j])
    ensures Run(cfg, Init(cfg), acts', s') && Eager(s', idle - 1)
    ensures var m := Advance(cfg, s.workers[j], s.log);
            && (forall x :: Active(x) ==>
                  Sum(s'.workers, Is(x)) == Sum(s.workers, Is(x)) - Is(x)(s.workers[j]) + Parts(x)(m.next))
            && (s'.log == s.log + m.events
                || (m.next.Enqueueing? && s'.log == s.log + m.events + [Picked(m.next.pending)]))
  {
    var w, m := s.workers[j], Advance(cfg, s.workers[j], s.log);
    var s1;
    acts', s1 := Then(cfg, acts, s, Go(j));
    forall x
      ensures Sum(s1.workers, Is(x)) == Sum(s.workers, Is(x)) - Is(x)(w) + Is(x)(m.next)
    {
      SumUpdate(s.workers, j, m.next, Is(x));
    }
    if m.next.Enqueueing? {
      var f;
      acts', s', f := Spawn(cfg, acts', s1, j, idle);
      SpawnCounts(s1.workers, j, f, Idle);
      forall x | Active(x)
        ensures Sum(s'.workers, Is(x)) == Sum(s1.workers, Is(x)) + Parts(x)(m.next)
      {
        SpawnCounts(s1.workers, j, f, x);
      }
    } else {
      s' := s1;
    }
  }
}
