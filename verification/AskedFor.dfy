/** When IgnoreDuplicateDirs keeps its promise: no walk opens a directory twice exactly if, in no walk, the
    wrapped callback itself asks for a link to a directory to be traversed. */
module AskedFor {
  import opened Entries
  import opened Protocol
  import opened Ledger
  import opened Ownership
  import opened Graph
  import opened GraphSearch
  import opened AtMostOnce
  import opened Regraft
  import opened Mimic
  import A = Adapters
  import C = Consent
  import W = GraphWalks

  // ----- the first time

  lemma {:induction false} RunLast(cfg: Config, s: State, acts: seq<Action>, t: State) returns (u: State)
    requires acts != [] && Run(cfg, s, acts, t)
    ensures var n := |acts| - 1;
            Run(cfg, s, acts[..n], u) && Enabled(cfg, u, acts[n]) && t == Apply(cfg, u, acts[n])
    decreases |acts|
  {
    if |acts| == 1 {
      u := s;
    } else {
      u := RunLast(cfg, Apply(cfg, s, acts[0]), acts[1..], t);
      assert acts[..|acts| - 1][1..] == acts[1..][..|acts| - 2];
    }
  }

  /** Worker `i` is about to make a call that asks for `k`. */
  ghost predicate AsksNext(t: Search, s: State, i: nat, k: FileKey) {
    && i < |s.workers| && s.workers[i].Reading? && s.workers[i].rest != []
    && s.workers[i].rest[0].typ == Symlink
    && Asks(t, s.log, EntryCall(s.workers[i].it, s.workers[i].rest[0]), k)
  }

  lemma NothingMoreAsked(t: Search, log: seq<Event>, evs: seq<Event>, k: FileKey)
    requires |evs| <= 2
    requires forall e :: e in evs && e.Called? ==> e.call.err != Nil || e.call.typ != Symlink
    ensures Asked(t, log + evs, k) == Asked(t, log, k)
  {
    if evs == [] {
      assert log + evs == log;
    } else {
      GrantedNext(t, log, evs[0], k);
      if |evs| == 2 {
        GrantedNext(t, log + [evs[0]], evs[1], k);
        assert log + [evs[0]] + [evs[1]] == log + evs;
      } else {
        assert evs == [evs[0]];
      }
    }
  }

  lemma EntryAsks(t: Search, w: Worker, log: seq<Event>, k: FileKey)
    requires w.Reading? && w.rest != []
    requires Asked(t, log + Advance(t.cfg, w, log).events, k) > Asked(t, log, k)
    ensures w.rest[0].typ == Symlink && Asks(t, log, EntryCall(w.it, w.rest[0]), k)
  {
    var c := EntryCall(w.it, w.rest[0]);
    EntryMoves(t.cfg, w, log);
    GrantedNext(t, log, Called(c), k);
    assert log + [] == log;
  }

  lemma GoAsks(t: Search, s: State, i: nat, k: FileKey)
    requires Wraps(t) && GoodState(t.g, s) && Enabled(t.cfg, s, Go(i))
    requires Asked(t, Apply(t.cfg, s, Go(i)).log, k) > Asked(t, s.log, k)
    ensures AsksNext(t, s, i, k)
  {
    var w := s.workers[i];
    assert GoodWorkers(t.g)(w);
    if w.Reading? && w.rest != [] {
      EntryAsks(t, w, s.log, k);
    } else {
      NoEntryCalled(t, w, s.log);
      NothingMoreAsked(t, s.log, Advance(t.cfg, w, s.log).events, k);
    }
  }

  lemma NoEntryCalled(t: Search, w: Worker, log: seq<Event>)
    requires Active(w) && GoodWorker(t.g, w) && (w.Reading? ==> w.rest == [])
    ensures var evs := Advance(t.cfg, w, log).events;
            |evs| <= 2 && forall e :: e in evs && e.Called? ==> e.call.err != Nil || e.call.typ != Symlink
  {
  }

  ghost predicate NothingAskedYet(t: Search, log: seq<Event>) {
    forall k :: IsDir(t.g, k) ==> Asked(t, log, k) == 0
  }

  lemma {:induction false} FirstAsk(t: Search, acts: seq<Action>, s: State, k: FileKey)
    returns (acts0: seq<Action>, s0: State, i: nat, k0: FileKey)
    requires Wraps(t) && Run(t.cfg, Init(t.cfg), acts, s) && IsDir(t.g, k) && Asked(t, s.log, k) > 0
    ensures Run(t.cfg, Init(t.cfg), acts0, s0) && NothingAskedYet(t, s0.log)
    ensures IsDir(t.g, k0) && AsksNext(t, s0, i, k0)
    decreases |acts|
  {
    if acts == [] {
    } else {
      var n := |acts| - 1;
      var u := RunLast(t.cfg, Init(t.cfg), acts, s);
      if k': FileKey :| IsDir(t.g, k') && Asked(t, u.log, k') > 0 {
        acts0, s0, i, k0 := FirstAsk(t, acts[..n], u, k');
      } else {
        LogGrows(t.cfg, u, acts[n]);
        if acts[n].Go? {
          InitGood(t);
          RunGoodState(t, Init(t.cfg), acts[..n], u);
          GoAsks(t, u, acts[n].i, k);
          acts0, s0, i, k0 := acts[..n], u, acts[n].i, k;
        } else {
          NoOpening(t, u, acts[n], k);
        }
      }
    }
  }

  lemma {:induction false} RunGoodState(t: Search, s: State, acts: seq<Action>, s': State)
    requires Wraps(t) && GoodState(t.g, s) && Run(t.cfg, s, acts, s')
    ensures GoodState(t.g, s')
    decreases |acts|
  {
    if acts == [] {
    } else {
      StepGood(t, s, acts[0]);
      RunGoodState(t, Apply(t.cfg, s, acts[0]), acts[1..], s');
    }
  }

  // ----- until then nothing follows the link

  /** The entry `name` of `d` has not been called for. */
  ghost predicate Untouched(t: Search, log: seq<Event>, d: FileKey, name: Name) {
    forall c :: Called(c) in log && c.err == Nil && |c.path| > |t.cfg.root| ==>
      !(Names(t.g, Parent(c.path), d) && c.path[|c.path| - 1] == name)
  }

  /** It is a link. */
  ghost predicate IsLink(t: Search, d: FileKey, name: Name) {
    forall p, e :: Names(t.g, p, d) && e in t.cfg.fs.list(p).entries && e.name == name ==> e.typ == Symlink
  }

  lemma OpenedNotAtLink(t: Search, log: seq<Event>, d: FileKey, name: Name, p: Path)
    requires C.GoodLog(t.cfg, log) && Untouched(t, log, d, name) && Opened(p) in log && |p| > |t.cfg.root|
    ensures !(Names(t.g, Parent(p), d) && p[|p| - 1] == name)
  {
    var j := C.PermittingCall(t.cfg, log, p);
    assert log[j] == Called(log[j].call);
  }

  lemma OpenedClean(t: Search, log: seq<Event>, d: FileKey, name: Name, p: Path)
    requires C.GoodLog(t.cfg, log) && Untouched(t, log, d, name)
    requires Opened(p) in log && IsPrefix(t.cfg.root, p)
    ensures Clean(t.g, t.cfg.root, d, name, p)
  {
    forall i | |t.cfg.root| <= i < |p|
      ensures !(Names(t.g, p[..i], d) && p[i] == name)
    {
      var q := p[..i + 1];
      assert Parent(q) == p[..i];
      C.OpenedAbove(t.cfg, log, q, p);
      OpenedNotAtLink(t, log, d, name, q);
    }
  }

  lemma ItemNotAtLink(t: Search, log: seq<Event>, d: FileKey, name: Name, it: Item)
    requires C.GoodItem(t.cfg, log, it) && it.dir != t.cfg.root
    requires Untouched(t, log, d, name) && IsLink(t, d, name)
    ensures !(Names(t.g, Parent(it.dir), d) && it.dir[|it.dir| - 1] == name)
  {
    if it.callbackDone {
      var j :| 0 <= j < |log| && C.AllowedAt(t.cfg, log, it.dir, j);
      assert log[j] == Called(log[j].call);
    }
  }

  lemma CleanStep(g: Graph, root: Path, d: FileKey, name: Name, p: Path)
    requires IsPrefix(root, p) && p != root && Clean(g, root, d, name, Parent(p))
    requires !(Names(g, Parent(p), d) && p[|p| - 1] == name)
    ensures Clean(g, root, d, name, p)
  {
    forall i | |root| <= i < |p|
      ensures !(Names(g, p[..i], d) && p[i] == name)
    {
      assert p[..i] == Parent(p)[..i];
    }
  }

  lemma ItemClean(t: Search, log: seq<Event>, d: FileKey, name: Name, it: Item)
    requires C.GoodLog(t.cfg, log) && C.GoodItem(t.cfg, log, it)
    requires Untouched(t, log, d, name) && IsLink(t, d, name)
    ensures Clean(t.g, t.cfg.root, d, name, it.dir)
  {
    var p := it.dir;
    if p != t.cfg.root {
      assert Parent(p)[..|t.cfg.root|] == p[..|t.cfg.root|];
      OpenedClean(t, log, d, name, Parent(p));
      ItemNotAtLink(t, log, d, name, it);
      CleanStep(t.g, t.cfg.root, d, name, p);
    }
  }

  /** The next entry is another one, unless it is called for now. */
  lemma NextClean(t: Search, s: State, i: nat, d: FileKey, name: Name)
    requires C.GoodState(t.cfg, s) && Enabled(t.cfg, s, Go(i)) && IsLink(t, d, name)
    requires Untouched(t, Apply(t.cfg, s, Go(i)).log, d, name)
    ensures var w := s.workers[i];
            && Clean(t.g, t.cfg.root, d, name, w.it.dir)
            && (w.Reading? && w.rest != [] ==> Clean(t.g, t.cfg.root, d, name, w.it.dir + [w.rest[0].name]))
  {
    var w := s.workers[i];
    assert C.GoodWorkers(t.cfg, s.log)(w);
    LogGrows(t.cfg, s, Go(i));
    EarlierUntouched(t, s.log, Apply(t.cfg, s, Go(i)).log, d, name);
    ItemClean(t, s.log, d, name, w.it);
    if w.Reading? && w.rest != [] {
      var p := w.it.dir + [w.rest[0].name];
      assert p[..|t.cfg.root|] == w.it.dir[..|t.cfg.root|] && Parent(p) == w.it.dir && w.rest[0] in w.rest;
      if Names(t.g, w.it.dir, d) && w.rest[0].name == name {
        LinkIsCalled(t.cfg, s, i);
      }
      CleanStep(t.g, t.cfg.root, d, name, p);
    }
  }

  lemma LinkIsCalled(cfg: Config, s: State, i: nat)
    requires Enabled(cfg, s, Go(i)) && s.workers[i].Reading? && s.workers[i].rest != []
    requires s.workers[i].rest[0].typ == Symlink
    ensures var w := s.workers[i];
            var log' := Apply(cfg, s, Go(i)).log;
            log' == s.log + [Called(EntryCall(w.it, w.rest[0]))] && Called(EntryCall(w.it, w.rest[0])) in log'
  {
    EntryMoves(cfg, s.workers[i], s.log);
  }

  // ----- the mimicry

  /** What avoids the link looks the same to the twin. */
  ghost predicate Likeness(t: Search, t': Search, d: FileKey, name: Name) {
    && Twins(t, t') && IsLink(t, d, name)
    && forall p :: Clean(t.g, t.cfg.root, d, name, p) ==> Alike(t.g, t'.g, p)
  }

  /** `s'` mimics `s`, with `idle` workers to spare. */
  ghost predicate Mimics(t: Search, s: State, t': Search, s': State, idle: nat) {
    SameMemory(t, s.log, t', s'.log) && Covered(s, s') && Eager(s', idle)
  }

  /** The counts after a step of a worker and its match. */
  lemma StillCovered(cfg: Config, s: State, i: nat, s': State, s'': State, next: Worker)
    requires Enabled(cfg, s, Go(i)) && Covered(s, s')
    requires var w, m := s.workers[i], Advance(cfg, s.workers[i], s.log);
             forall x :: Active(x) ==>
               && Parts(x)(m.next) <= Parts(x)(next)
               && Sum(s''.workers, Is(x)) == Sum(s'.workers, Is(x)) - Is(x)(w) + Parts(x)(next)
    ensures Covered(Apply(cfg, s, Go(i)), s'')
  {
    forall x | Active(x)
      ensures Total(Apply(cfg, s, Go(i)), Waits(x), Parts(x)) <= Sum(s''.workers, Is(x))
    {
      TotalStep(cfg, s, Go(i), Waits(x), Parts(x));
    }
  }

  /** Somebody mimics worker `i`. */
  lemma Counterpart(s: State, s': State, i: nat) returns (j: nat)
    requires Covered(s, s') && i < |s.workers| && Active(s.workers[i])
    ensures j < |s'.workers| && s'.workers[j] == s.workers[i]
  {
    var w := s.workers[i];
    SumAtLeast(s.workers, i, Parts(w));
    j := SumWitness(s'.workers, Is(w));
  }

  lemma PickingIsForgotten(t: Search, log: seq<Event>, m: Move, log': seq<Event>)
    requires log' == log + m.events || (m.next.Enqueueing? && log' == log + m.events + [Picked(m.next.pending)])
    ensures Memory(t, log') == Memory(t, log + m.events)
  {
    if log' != log + m.events {
      OtherEventsClaimNothing(t, log + m.events, Picked(m.next.pending));
    }
  }

  lemma MimicGo(t: Search, t': Search, d: FileKey, name: Name, s: State, i: nat, acts': seq<Action>, s': State,
                idle: nat)
    returns (acts'': seq<Action>, s'': State)
    requires Likeness(t, t', d, name) && C.GoodState(t.cfg, s) && Enabled(t.cfg, s, Go(i))
    requires Untouched(t, Apply(t.cfg, s, Go(i)).log, d, name)
    requires Run(t'.cfg, Init(t'.cfg), acts', s') && Mimics(t, s, t', s', idle) && idle > 0
    ensures Run(t'.cfg, Init(t'.cfg), acts'', s'') && Mimics(t, Apply(t.cfg, s, Go(i)), t', s'', idle - 1)
  {
    var w := s.workers[i];
    var m' := Advance(t'.cfg, w, s'.log);
    NextClean(t, s, i, d, name);
    SameGo(t, s.log, t', s'.log, w);
    var j := Counterpart(s, s', i);
    acts'', s'' := MoveEagerly(t'.cfg, acts', s', j, idle);
    PickingIsForgotten(t', s'.log, m', s''.log);
    StillCovered(t.cfg, s, i, s', s'', m'.next);
  }

  lemma MimicOther(t: Search, t': Search, s: State, a: Action, s': State, idle: nat)
    requires Enabled(t.cfg, s, a) && !a.Go? && Mimics(t, s, t', s', idle)
    ensures Mimics(t, Apply(t.cfg, s, a), t', s', idle)
  {
    LogGrows(t.cfg, s, a);
    if a.Take? {
      OtherEventsClaimNothing(t, s.log, Picked(s.workc[0]));
    } else {
      assert s.log + [] == s.log;
    }
    forall x | Active(x)
      ensures Total(Apply(t.cfg, s, a), Waits(x), Parts(x)) <= Sum(s'.workers, Is(x))
    {
      TotalStep(t.cfg, s, a, Waits(x), Parts(x));
      PartsPassedOn(x);
      ChannelSpends(t.cfg, s, a, Waits(x), Parts(x));
    }
  }

  lemma {:induction false} MimicRun(t: Search, t': Search, d: FileKey, name: Name, s: State, acts: seq<Action>,
                                    end: State, acts': seq<Action>, s': State, idle: nat)
    returns (acts'': seq<Action>, s'': State)
    requires Likeness(t, t', d, name) && C.GoodState(t.cfg, s) && Run(t.cfg, s, acts, end)
    requires Untouched(t, end.log, d, name)
    requires Run(t'.cfg, Init(t'.cfg), acts', s') && Mimics(t, s, t', s', |acts| + idle)
    ensures Run(t'.cfg, Init(t'.cfg), acts'', s'') && Mimics(t, end, t', s'', idle)
    decreases |acts|
  {
    if acts == [] {
      acts'', s'' := acts', s';
    } else {
      var u := Apply(t.cfg, s, acts[0]);
      C.StepGood(t.cfg, s, acts[0]);
      C.RunGood(t.cfg, u, acts[1..], end);
      EarlierUntouched(t, u.log, end.log, d, name);
      if acts[0].Go? {
        acts'', s'' := MimicGo(t, t', d, name, s, acts[0].i, acts', s', |acts| + idle);
      } else {
        MimicOther(t, t', s, acts[0], s', |acts| + idle);
        acts'', s'' := acts', s';
      }
      acts'', s'' := MimicRun(t, t', d, name, u, acts[1..], end, acts'', s'', idle);
    }
  }

  lemma EarlierUntouched(t: Search, log: seq<Event>, log': seq<Event>, d: FileKey, name: Name)
    requires IsPrefix(log, log') && Untouched(t, log', d, name)
    ensures Untouched(t, log, d, name)
  {
    forall e | e in log
      ensures e in log'
    {
      var i :| 0 <= i < |log| && log[i] == e;
      assert log'[..|log|][i] == log'[i];
    }
  }

  lemma TakeRoot(cfg: Config, root: Item) returns (acts: seq<Action>, s: State)
    requires Starts(cfg, root)
    ensures Run(cfg, Init(cfg), acts, s)
    ensures s == State(Selecting, [], 1, [], [], [], Init(cfg).workers[0 := Entering(root)], [Picked(root)])
  {
    acts, s := TakeFirst(cfg, [], Init(cfg), root, 0);
    assert [] + [Picked(root)] == [Picked(root)];
  }

  /** The twin starts by taking the root. */
  lemma MimicStart(t: Search, t': Search, root: Item, idle: nat) returns (acts': seq<Action>, s': State)
    requires Twins(t, t') && Starts(t.cfg, root) && Starts(t'.cfg, root) && t'.cfg.numWorkers >= idle + 1
    ensures Run(t'.cfg, Init(t'.cfg), acts', s') && Mimics(t, Init(t.cfg), t', s', idle)
  {
    acts', s' := TakeRoot(t'.cfg, root);
    OtherEventsClaimNothing(t', [], Picked(root));
    assert [] + [Picked(root)] == [Picked(root)];
    IdleWorkers(Init(t'.cfg).workers);
    SumUpdate(Init(t'.cfg).workers, 0, Entering(root), Is(Idle));
    RootCovered(t.cfg, root, s');
  }

  lemma RootCovered(cfg: Config, root: Item, s': State)
    requires Starts(cfg, root) && s'.workers != [] && s'.workers[0] == Entering(root)
    ensures Covered(Init(cfg), s')
  {
    forall x | Active(x)
      ensures Total(Init(cfg), Waits(x), Parts(x)) <= Sum(s'.workers, Is(x))
    {
      InitTotal(cfg, root, Waits(x), Parts(x));
      SumAtLeast(s'.workers, 0, Is(x));
    }
  }

  lemma {:induction false} IdleWorkers(ws: seq<Worker>)
    requires forall i :: 0 <= i < |ws| ==> ws[i] == Idle
    ensures Sum(ws, Is(Idle)) == |ws|
  {
    if ws == [] {
    } else {
      IdleWorkers(ws[1..]);
    }
  }

  // ----- the second opening

  /** A call for that entry of the directory would be one on the path on which it is being read. */
  lemma CallIsHere(t: Search, log: seq<Event>, p: Path, d: FileKey, name: Name, c: Call)
    requires C.GoodLog(t.cfg, log) && Sum(log, OpensKey(t.g, d)) <= 1 && Opened(p) in log && Names(t.g, p, d)
    requires Called(c) in log && c.err == Nil && |c.path| > |t.cfg.root|
    requires Names(t.g, Parent(c.path), d) && c.path[|c.path| - 1] == name
    ensures c.path == p + [name]
  {
    ParentOpened(t.cfg, log, c);
    OpenedAtOnePath(t.g, log, d, Parent(c.path), p);
    SplitPath(c.path);
  }

  lemma OpenedAtOnePath(g: Graph, log: seq<Event>, d: FileKey, p: Path, q: Path)
    requires Opened(p) in log && Opened(q) in log && Names(g, p, d) && Names(g, q, d)
    requires Sum(log, OpensKey(g, d)) <= 1
    ensures p == q
  {
    if p != q {
      TwoOpenings(g, log, d, p, q);
    }
  }

  /** The link that is called for next has not been called for on any path. */
  lemma LinkUntouched(t: Search, acts: seq<Action>, s: State, i: nat, k: FileKey)
    requires Wraps(t) && Run(t.cfg, Init(t.cfg), acts, s) && NothingAskedYet(t, s.log) && AsksNext(t, s, i, k)
    requires C.GoodLog(t.cfg, s.log) && Opened(s.workers[i].it.dir) in s.log && NamesDir(t.g, s.workers[i].it.dir)
    ensures var w := s.workers[i];
            Untouched(t, s.log, Resolve(t.g, w.it.dir).value, w.rest[0].name)
  {
    var w := s.workers[i];
    var p, name, d := w.it.dir, w.rest[0].name, Resolve(t.g, w.it.dir).value;
    OpenedAtMostOnce(t, acts, s, d);
    forall c | Called(c) in s.log && c.err == Nil && |c.path| > |t.cfg.root|
      ensures !(Names(t.g, Parent(c.path), d) && c.path[|c.path| - 1] == name)
    {
      if Names(t.g, Parent(c.path), d) && c.path[|c.path| - 1] == name {
        CallIsHere(t, s.log, p, d, name, c);
        NotCalledBefore(t, acts, s, i, c);
      }
    }
  }

  lemma ParentOpened(cfg: Config, log: seq<Event>, c: Call)
    requires C.GoodLog(cfg, log) && Called(c) in log && c.err == Nil && c.path != cfg.root
    ensures Opened(Parent(c.path)) in log
  {
    var j :| 0 <= j < |log| && log[j] == Called(c);
    assert C.Justified(cfg, log[..j], log[j]);
  }

  lemma TwoOpenings(g: Graph, log: seq<Event>, d: FileKey, p: Path, q: Path)
    requires Opened(p) in log && Opened(q) in log && Names(g, p, d) && Names(g, q, d) && p != q
    ensures Sum(log, OpensKey(g, d)) >= 2
  {
    var i :| 0 <= i < |log| && log[i] == Opened(p);
    var j :| 0 <= j < |log| && log[j] == Opened(q);
    var lo, hi := if i < j then i else j, if i < j then j else i;
    assert log == log[..hi] + log[hi..];
    SumAppend(log[..hi], log[hi..], OpensKey(g, d));
    SumAtLeast(log[..hi], lo, OpensKey(g, d));
    SumAtLeast(log[hi..], 0, OpensKey(g, d));
  }

  /** An entry that is called for next has not been called for before. */
  lemma NotCalledBefore(t: Search, acts: seq<Action>, s: State, i: nat, c: Call)
    requires Wraps(t) && Run(t.cfg, Init(t.cfg), acts, s)
    requires i < |s.workers| && s.workers[i].Reading? && s.workers[i].rest != []
    requires s.workers[i].rest[0].typ == Symlink && c.err == Nil
    requires c.path == s.workers[i].it.dir + [s.workers[i].rest[0].name]
    ensures Called(c) !in s.log
  {
    var s' := Apply(t.cfg, s, Go(i));
    RunExtend(t.cfg, Init(t.cfg), acts, s, Go(i));
    LinkIsCalled(t.cfg, s, i);
    W.GraphUniquelyNamed(t.g);
    forall j | 0 <= j < |s.log|
      ensures s.log[j] != Called(c)
    {
      if s.log[j] == Called(c) {
        CallsAreDistinct(t.cfg, acts + [Go(i)], s', j, |s.log|);
      }
    }
  }

  /** The twin's files: the link leads to the directory it is in. */
  lemma LinkTurned(t: Search, s: State, i: nat, k: FileKey, workers: nat)
    returns (t': Search)
    requires Wraps(t) && t.kind.Dirs? && GoodState(t.g, s) && AsksNext(t, s, i, k) && workers >= 1
    requires IsPrefix(t.cfg.root, s.workers[i].it.dir)
    ensures var w := s.workers[i];
            var p, name := w.it.dir, w.rest[0].name;
            && NamesDir(t.g, p)
            && var d := Resolve(t.g, p).value;
               && Likeness(t, t', d, name) && t'.cfg.numWorkers == workers
               && (Clean(t.g, t.cfg.root, d, name, p) ==> Names(t'.g, p, d) && Names(t'.g, p + [name], d))
  {
    var w := s.workers[i];
    assert GoodWorkers(t.g)(w);
    FirstEntry(t.g, w.it.dir, w.rest);
    var d := Resolve(t.g, w.it.dir).value;
    var links := t.g.nodes[d].links;
    var j := |links| - |w.rest|;
    assert List(t.g, w.it.dir).entries == DirEnts(links);
    PrefixIsDir(t.g, w.it.dir, |t.cfg.root|);
    var g' := Regrafted(t.g, t.cfg.root, d, j);
    var fs := FileSystemOf(g');
    t' := Search(Config(fs, t.cfg.root, false, 0, workers, A.Wrapped(A.Dirs, fs, t.inner)), g', A.Dirs, t.inner);
    LinkByName(t, d, j);
  }

  lemma LinkByName(t: Search, d: FileKey, j: nat)
    requires Wraps(t) && IsDir(t.g, d) && j < |t.g.nodes[d].links| && t.g.nodes[d].links[j].typ == Symlink
    ensures IsLink(t, d, t.g.nodes[d].links[j].name)
  {
    var links := t.g.nodes[d].links;
    forall p, e | Names(t.g, p, d) && e in t.cfg.fs.list(p).entries && e.name == links[j].name
      ensures e.typ == Symlink
    {
      assert t.cfg.fs.list(p) == List(t.g, p);
      var n :| 0 <= n < |links| && DirEnts(links)[n] == e;
    }
  }

  lemma AskedLinkMoves(t: Search, w: Worker, log: seq<Event>)
    requires Wraps(t) && t.kind.Dirs? && Unlimited(t.cfg)
    requires w.Reading? && w.rest != [] && w.rest[0].typ == Symlink
    requires InnerAnswer(t, log, EntryCall(w.it, w.rest[0])) == TraverseLink
    ensures var m := Advance(t.cfg, w, log);
            && m.events == [Called(EntryCall(w.it, w.rest[0]))]
            && m.next.Enqueueing? && m.next.pending == ChildItem(w.it, w.rest[0])
  {
    CallMemory(t, log, EntryCall(w.it, w.rest[0]));
    LinkMoves(t, w, log);
  }

  lemma OpeningsStay(g: Graph, k: FileKey, log: seq<Event>, a: seq<Event>, b: seq<Event>)
    ensures Sum(log + a + b, OpensKey(g, k)) >= Sum(log + a, OpensKey(g, k)) >= Sum(log, OpensKey(g, k))
  {
    SumAppend(log, a, OpensKey(g, k));
    SumAppend(log + a, b, OpensKey(g, k));
  }

  /** The move of a worker that enqueues `child`, and the taking of it by another. */
  lemma TakesTheChild(cfg: Config, acts: seq<Action>, s: State, j: nat, child: Item)
    returns (acts': seq<Action>, s': State, n: nat)
    requires cfg.numWorkers >= 1 && Run(cfg, Init(cfg), acts, s) && Eager(s, 1)
    requires j < |s.workers| && s.workers[j].Reading?
    requires var m := Advance(cfg, s.workers[j], s.log);
             m.next.Enqueueing? && m.next.pending == child
    ensures Run(cfg, Init(cfg), acts', s')
    ensures n < |s'.workers| && s'.workers[n] == Entering(child)
    ensures var evs := Advance(cfg, s.workers[j], s.log).events;
            s'.log == s.log + evs || s'.log == s.log + evs + [Picked(child)]
  {
    acts', s' := MoveEagerly(cfg, acts, s, j, 1);
    var x := Entering(child);
    assert Sum(s'.workers, Is(x)) > 0;
    n := SumWitness(s'.workers, Is(x));
  }

  /** The call that asks, and the taking of the link... */
  lemma TakesTheLink(t': Search, acts: seq<Action>, s: State, j: nat, k: FileKey)
    returns (acts': seq<Action>, s': State, n: nat)
    requires Wraps(t') && t'.kind.Dirs? && Unlimited(t'.cfg) && t'.cfg.numWorkers >= 1
    requires Run(t'.cfg, Init(t'.cfg), acts, s) && Eager(s, 1)
    requires j < |s.workers| && s.workers[j].Reading? && s.workers[j].rest != [] && s.workers[j].rest[0].typ == Symlink
    requires InnerAnswer(t', s.log, EntryCall(s.workers[j].it, s.workers[j].rest[0])) == TraverseLink
    ensures Run(t'.cfg, Init(t'.cfg), acts', s')
    ensures n < |s'.workers| && s'.workers[n] == Entering(ChildItem(s.workers[j].it, s.workers[j].rest[0]))
    ensures Sum(s'.log, OpensKey(t'.g, k)) >= Sum(s.log, OpensKey(t'.g, k))
  {
    var w := s.workers[j];
    var child := ChildItem(w.it, w.rest[0]);
    AskedLinkMoves(t', w, s.log);
    acts', s', n := TakesTheChild(t'.cfg, acts, s, j, child);
    OpeningsStay(t'.g, k, s.log, [Called(EntryCall(w.it, w.rest[0]))], [Picked(child)]);
  }

  /** ... and its opening. */
  lemma OpensTheLink(cfg: Config, g: Graph, acts: seq<Action>, s: State, n: nat, k: FileKey)
    returns (acts': seq<Action>, s': State)
    requires Unlimited(cfg) && Run(cfg, Init(cfg), acts, s)
    requires n < |s.workers| && s.workers[n].Entering? && s.workers[n].it.callbackDone
    requires Names(g, s.workers[n].it.dir, k)
    ensures Run(cfg, Init(cfg), acts', s')
    ensures Sum(s'.log, OpensKey(g, k)) == Sum(s.log, OpensKey(g, k)) + 1
  {
    var it := s.workers[n].it;
    EnterMoves(cfg, it, s.log);
    acts', s' := Then(cfg, acts, s, Go(n));
    SumLast(s.log, Opened(it.dir), OpensKey(g, k));
  }

  /** The twin for a walk that is about to ask. */
  lemma TwinFor(t: Search, acts: seq<Action>, s: State, i: nat, k: FileKey, workers: nat)
    returns (t': Search, d: FileKey)
    requires Wraps(t) && t.kind.Dirs? && workers >= 1 && Run(t.cfg, Init(t.cfg), acts, s)
    requires NothingAskedYet(t, s.log) && AsksNext(t, s, i, k)
    ensures var w := s.workers[i];
            var p, name := w.it.dir, w.rest[0].name;
            && Likeness(t, t', d, name) && t'.cfg.numWorkers == workers && Untouched(t, s.log, d, name)
            && NamesDir(t.g, t.cfg.root) && IsDir(t'.g, d)
            && Names(t'.g, p, d) && Names(t'.g, p + [name], d)
  {
    var w := s.workers[i];
    InitGood(t);
    RunGoodState(t, Init(t.cfg), acts, s);
    C.InitGood(t.cfg);
    C.RunGood(t.cfg, Init(t.cfg), acts, s);
    assert C.GoodWorkers(t.cfg, s.log)(w);
    t' := LinkTurned(t, s, i, k, workers);
    d := Resolve(t.g, w.it.dir).value;
    LinkUntouched(t, acts, s, i, k);
    ItemClean(t, s.log, d, w.rest[0].name, w.it);
    TwinNames(t, t', d, w.rest[0].name, w.it.dir);
  }

  lemma TwinNames(t: Search, t': Search, d: FileKey, name: Name, p: Path)
    requires Likeness(t, t', d, name) && Clean(t.g, t.cfg.root, d, name, p) && NamesDir(t.g, p) && Names(t.g, p, d)
    ensures NamesDir(t.g, t.cfg.root) && IsDir(t'.g, d)
  {
    assert p[..|t.cfg.root|] == t.cfg.root;
    PrefixIsDir(t.g, p, |t.cfg.root|);
    ResolveNode(t'.g, p);
    assert Stat(t'.g, p) == Stat(t.g, p);
  }

  /** If the inner callback asks for a link in one walk, there is another one in which a directory is
      opened twice. */
  lemma AskedOpensTwice(t: Search, acts: seq<Action>, s: State, i: nat, k: FileKey)
    returns (t': Search, acts': seq<Action>, s': State, d: FileKey)
    requires Wraps(t) && t.kind.Dirs? && t.cfg.numWorkers >= 1 && Run(t.cfg, Init(t.cfg), acts, s)
    requires NothingAskedYet(t, s.log) && AsksNext(t, s, i, k)
    ensures Wraps(t') && t'.kind.Dirs? && t'.inner == t.inner && t'.cfg.numWorkers >= 1
    ensures IsDir(t'.g, d) && Run(t'.cfg, Init(t'.cfg), acts', s') && Sum(s'.log, OpensKey(t'.g, d)) >= 2
  {
    t', d := TwinFor(t, acts, s, i, k, |acts| + 2);
    var s1;
    acts', s1 := MimicToTheEnd(t, t', d, s.workers[i].rest[0].name, acts, s);
    var j := Counterpart(s, s1, i);
    OpenedByTwin(t'.cfg, t'.g, acts', s1, j, d);
    var n;
    acts', s', n := TakesTheLink(t', acts', s1, j, d);
    acts', s' := OpensTheLink(t'.cfg, t'.g, acts', s', n, d);
  }

  lemma OpenedByTwin(cfg: Config, g: Graph, acts: seq<Action>, s: State, j: nat, d: FileKey)
    requires Run(cfg, Init(cfg), acts, s) && j < |s.workers| && s.workers[j].Reading?
    requires Names(g, s.workers[j].it.dir, d)
    ensures Sum(s.log, OpensKey(g, d)) >= 1
  {
    C.InitGood(cfg);
    C.RunGood(cfg, Init(cfg), acts, s);
    assert C.GoodWorkers(cfg, s.log)(s.workers[j]);
    var n :| 0 <= n < |s.log| && s.log[n] == Opened(s.workers[j].it.dir);
    SumAtLeast(s.log, n, OpensKey(g, d));
  }

  lemma MimicToTheEnd(t: Search, t': Search, d: FileKey, name: Name, acts: seq<Action>, s: State)
    returns (acts': seq<Action>, s': State)
    requires Likeness(t, t', d, name) && t.cfg.numWorkers >= 1 && NamesDir(t.g, t.cfg.root)
    requires Run(t.cfg, Init(t.cfg), acts, s) && Untouched(t, s.log, d, name) && t'.cfg.numWorkers >= |acts| + 2
    ensures Run(t'.cfg, Init(t'.cfg), acts', s') && Mimics(t, s, t', s', 1)
  {
    assert Clean(t.g, t.cfg.root, d, name, t.cfg.root);
    assert t.cfg.fs.stat(t.cfg.root) == Stat(t.g, t.cfg.root) == Stat(t'.g, t.cfg.root) == t'.cfg.fs.stat(t.cfg.root);
    ResolveNode(t.g, t.cfg.root);
    var root := RootItem(t.cfg, t.cfg.fs.stat(t.cfg.root).value);
    C.InitGood(t.cfg);
    acts', s' := MimicStart(t, t', root, |acts| + 1);
    acts', s' := MimicRun(t, t', d, name, Init(t.cfg), acts, s, acts', s', 1);
  }

  // ----- the exact condition

  /** A run of some walk with IgnoreDuplicateDirs around `inner`, and a directory of its files. */
  ghost predicate IsRun(inner: A.Inner, t: Search, acts: seq<Action>, s: State, k: FileKey) {
    && t.inner == inner && t.kind.Dirs? && Wraps(t) && t.cfg.numWorkers >= 1
    && Run(t.cfg, Init(t.cfg), acts, s) && IsDir(t.g, k)
  }

  /** No directory is ever opened twice. */
  ghost predicate OpensOnce(inner: A.Inner) {
    forall t, acts, s, k :: IsRun(inner, t, acts, s, k) ==> Sum(s.log, OpensKey(t.g, k)) <= 1
  }

  /** `inner` never answers ErrTraverseLink to a call without an error for a link to a directory. */
  ghost predicate NeverAsks(inner: A.Inner) {
    forall t, acts, s, k :: IsRun(inner, t, acts, s, k) ==> Asked(t, s.log, k) == 0
  }

  /** IgnoreDuplicateDirs has every directory read at most once, in all walks of all files, if and only if
      the callback it wraps never asks for a link to a directory to be traversed. */
  lemma OnceExactlyIfNeverAsked(inner: A.Inner)
    ensures OpensOnce(inner) <==> NeverAsks(inner)
  {
    if NeverAsks(inner) {
      forall t, acts, s, k | IsRun(inner, t, acts, s, k)
        ensures Sum(s.log, OpensKey(t.g, k)) <= 1
      {
        OpenedAtMostOnce(t, acts, s, k);
      }
    } else {
      var t, acts, s, k :| IsRun(inner, t, acts, s, k) && Asked(t, s.log, k) != 0;
      var acts0, s0, i, k0 := FirstAsk(t, acts, s, k);
      var t', acts', s', d := AskedOpensTwice(t, acts0, s0, i, k0);
      assert IsRun(inner, t', acts', s', d);
    }
  }
}
