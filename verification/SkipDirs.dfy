/** Whether Walk can return SkipDir. It is documented as an error that no function returns; but a
    callback that answers SkipDir for a file makes reading the directory fail with SkipDir, and what
    the callback then answers to that error is returned as it is. */
module SkipDirs {
  import opened Entries
  import opened Protocol
  import opened SequentialWalk
  import opened Ledger
  import opened Results
  import opened Outcomes
  import opened Schedules
  import opened WalkErrors

  // ----- any callback

  /** The callback never answers an error with SkipDir. */
  ghost predicate NoSkipOnError(cfg: Config) {
    forall log, c: Call :: c.err != Nil ==> cfg.fn(log, c) != SkipDir
  }

  ghost predicate NoSkipPending(s: State) {
    && SkipDir !in s.resc
    && (forall i :: 0 <= i < |s.workers| ==>
          && s.workers[i] != Sending(SkipDir)
          && (s.workers[i].Reporting? ==> s.workers[i].err != Nil))
    && (Closed(s) ==> s.coord.err != SkipDir)
  }

  lemma StepSendsNoSkip(cfg: Config, s: State, a: Action)
    requires NoSkipOnError(cfg) && NoSkipPending(s) && Enabled(cfg, s, a)
    ensures NoSkipPending(Apply(cfg, s, a))
  {
  }

  lemma {:induction false} RunSendsNoSkip(cfg: Config, s: State, acts: seq<Action>, t: State)
    requires NoSkipOnError(cfg) && NoSkipPending(s) && Run(cfg, s, acts, t)
    ensures NoSkipPending(t)
    decreases |acts|
  {
    if acts == [] {
    } else {
      StepSendsNoSkip(cfg, s, acts[0]);
      RunSendsNoSkip(cfg, Apply(cfg, s, acts[0]), acts[1..], t);
    }
  }

  /** Under a callback that never answers an error with SkipDir, Walk does not return it. */
  lemma SkipDirNotReturned(cfg: Config, acts: seq<Action>, s: State)
    requires NoSkipOnError(cfg) && Run(cfg, Init(cfg), acts, s) && s.coord.Returned?
    ensures s.coord.err != SkipDir
  {
    RunSendsNoSkip(cfg, Init(cfg), acts, s);
  }

  // ----- exactly when

  /** An error is reported to the callback and answered with SkipDir. */
  ghost predicate SkipsOnError(cfg: Config, events: seq<Event>) {
    exists c :: Called(c) in events && c.err != Nil && Answer(cfg, c) == SkipDir
  }

  lemma {:induction false} ReadReturnsSkipDir(cfg: Config, it: Item, rest: seq<DirEnt>, skipFiles: bool)
    ensures var o := ReadEntries(cfg, it, rest, skipFiles);
            o.res == SkipDir <==> SkipsOnError(cfg, o.events)
    decreases |rest|
  {
    if rest == [] {
      FinishReturnsSkipDir(cfg, it, cfg.fs.list(it.dir).err);
    } else {
      var e, tail := rest[0], rest[1..];
      var c := EntryCall(it, e);
      var d := Decide(cfg, e.typ, c.path, Answer(cfg, c));
      ReadReturnsSkipDir(cfg, it, tail, skipFiles);
      ReadReturnsSkipDir(cfg, it, tail, true);
      FinishReturnsSkipDir(cfg, it, d.err);
      if !(skipFiles && e.typ == Regular) && e.typ != Directory {
        var o :=
          if d.enqueue then ReadEntries(cfg, it, tail, skipFiles)
          else if d.err == Nil || d.err == SkipFiles then ReadEntries(cfg, it, tail, skipFiles || d.err == SkipFiles)
          else Finish(cfg, it, d.err);
        OneCallMore(cfg, c, o.events);
        assert ReadEntries(cfg, it, rest, skipFiles).events == [Called(c)] + o.events;
      }
    }
  }

  lemma FinishReturnsSkipDir(cfg: Config, it: Item, err: Error)
    ensures var o := Finish(cfg, it, err);
            o.res == SkipDir <==> SkipsOnError(cfg, o.events)
  {
    if err != Nil {
      assert Called(ItemCall(it, err)) in Finish(cfg, it, err).events;
    }
  }

  lemma OneCallMore(cfg: Config, c: Call, events: seq<Event>)
    requires c.err == Nil
    ensures SkipsOnError(cfg, [Called(c)] + events) <==> SkipsOnError(cfg, events)
  {
    forall c' | Called(c') in events
      ensures Called(c') in [Called(c)] + events
    {
    }
  }

  /** One call of walk returns SkipDir exactly if its second call of the callback does. */
  lemma VisitReturnsSkipDir(cfg: Config, it: Item)
    ensures Visit(cfg, it).res == SkipDir <==> SkipsOnError(cfg, OwnEvents(cfg)(it))
  {
    var o := ReadEntries(cfg, it, cfg.fs.list(it.dir).entries, false);
    ReadReturnsSkipDir(cfg, it, cfg.fs.list(it.dir).entries, false);
    forall c: Call | c.err != Nil
      ensures Called(c) in OwnEvents(cfg)(it) <==> IsRead(cfg, it) && Called(c) in o.events
    {
      VisitParts(cfg, it, c);
    }
    VisitParts(cfg, it, ItemCall(it, Nil));
  }

  lemma ResultsWithSkipDir(cfg: Config, root: Item, k: nat)
    ensures SkipDir in SeqResults(cfg, root, k) <==> SkipsOnError(cfg, SeqWalk(cfg, root, k))
  {
    if SkipDir in SeqResults(cfg, root, k) {
      var it := GatherOwner(Kids(cfg), OwnResult(cfg), OwnEvents(cfg), root, k, SkipDir, _ => true);
      VisitReturnsSkipDir(cfg, it);
    }
    if SkipsOnError(cfg, SeqWalk(cfg, root, k)) {
      var c :| Called(c) in SeqWalk(cfg, root, k) && c.err != Nil && Answer(cfg, c) == SkipDir;
      var it := GatherOwner(Kids(cfg), OwnEvents(cfg), OwnResult(cfg), root, k, Called(c), _ => true);
      VisitReturnsSkipDir(cfg, it);
      assert SkipDir in OwnResult(cfg)(it);
    }
  }

  /** Walk returns SkipDir only if the callback answers an error with it; it then fails in any case, with
      a result of the recursive walk, and if no other error competes, with SkipDir. */
  lemma SkipDirReturnedExactly(cfg: Config, acts: seq<Action>, s: State, root: Item, k: nat)
    requires Starts(cfg, root) && Pure(cfg) && SeqTerminates(cfg, root, k)
    requires Run(cfg, Init(cfg), acts, s) && s.coord.Returned?
    ensures s.coord.err == SkipDir ==> SkipsOnError(cfg, SeqWalk(cfg, root, k))
    ensures SkipsOnError(cfg, SeqWalk(cfg, root, k)) ==>
              s.coord.err != Nil && s.coord.err in SeqResults(cfg, root, k)
    ensures (forall e :: e in SeqResults(cfg, root, k) ==> e == Nil || e == SkipDir) ==>
              (s.coord.err == SkipDir <==> SkipsOnError(cfg, SeqWalk(cfg, root, k)))
  {
    WhatWalkReturns(cfg, acts, s, root, k);
    ResultsWithSkipDir(cfg, root, k);
  }

  /** Walk can return SkipDir if and only if some call of walk reports an error that is answered with it,
      and of those it is nested in fewer fail than there are workers. */
  lemma SkipDirCanBeReturnedExactly(cfg: Config, root: Item)
    requires Pure(cfg) && Starts(cfg, root)
    ensures CanReturn(cfg, SkipDir) <==>
              exists c :: Chain(cfg, root, c) && Sum(Above(c), Fails(cfg)) < cfg.numWorkers
                          && SkipsOnError(cfg, OwnEvents(cfg)(Last(c)))
  {
    ReturnsExactly(cfg, root, SkipDir);
    if Returnable(cfg, root, SkipDir) {
      var c :| ReturnableBy(cfg, root, SkipDir, c);
      VisitReturnsSkipDir(cfg, Last(c));
    }
    if c :| Chain(cfg, root, c) && Sum(Above(c), Fails(cfg)) < cfg.numWorkers
            && SkipsOnError(cfg, OwnEvents(cfg)(Last(c))) {
      VisitReturnsSkipDir(cfg, Last(c));
      assert ReturnableBy(cfg, root, SkipDir, c);
    }
  }

  // ----- a callback that hands back errors

  /** The callback returns the errors that are reported to it; and reading a directory does not fail
      with a sentinel of the walker. */
  ghost predicate HandsBack(cfg: Config) {
    HandsErrorsBack(cfg) && forall p :: cfg.fs.list(p).err != SkipDir
  }

  /** The call is for an entry that is neither directory nor link, and is answered with SkipDir. */
  ghost predicate SkippedFile(cfg: Config, root: Path, c: Call) {
    && c.err == Nil
    && c.typ != Directory && c.typ != Symlink
    && c.path != root
    && Answer(cfg, c) == SkipDir
  }

  ghost predicate SkipsAtFile(cfg: Config, root: Path, events: seq<Event>) {
    exists c :: Called(c) in events && SkippedFile(cfg, root, c)
  }

  lemma FirstCall(cfg: Config, root: Path, c: Call, events: seq<Event>)
    ensures SkipsAtFile(cfg, root, [Called(c)] + events) <==>
              SkippedFile(cfg, root, c) || SkipsAtFile(cfg, root, events)
  {
    assert ([Called(c)] + events)[0] == Called(c);
    forall c' | Called(c') in events
      ensures Called(c') in [Called(c)] + events
    {
    }
  }

  lemma FinishSkips(cfg: Config, root: Path, it: Item, err: Error)
    requires HandsBack(cfg)
    ensures var o := Finish(cfg, it, err);
            o.res == err && !SkipsAtFile(cfg, root, o.events)
  {
  }

  lemma {:induction false} ReadSkips(cfg: Config, root: Path, it: Item, rest: seq<DirEnt>, skipFiles: bool)
    requires HandsBack(cfg) && |it.dir| >= |root|
    ensures var o := ReadEntries(cfg, it, rest, skipFiles);
            o.res == SkipDir <==> SkipsAtFile(cfg, root, o.events)
    decreases |rest|
  {
    if rest == [] {
      FinishSkips(cfg, root, it, cfg.fs.list(it.dir).err);
    } else {
      var e, tail := rest[0], rest[1..];
      var c := EntryCall(it, e);
      var d := Decide(cfg, e.typ, c.path, Answer(cfg, c));
      ReadSkips(cfg, root, it, tail, skipFiles);
      ReadSkips(cfg, root, it, tail, true);
      FinishSkips(cfg, root, it, d.err);
      if d.enqueue || d.err == Nil || d.err == SkipFiles {
        FirstCall(cfg, root, c, ReadEntries(cfg, it, tail, (!d.enqueue && d.err == SkipFiles) || skipFiles).events);
      } else {
        FirstCall(cfg, root, c, Finish(cfg, it, d.err).events);
      }
      assert SkippedFile(cfg, root, c) ==> d == Decision(false, SkipDir);
    }
  }

  /** The items of a walk from `root`. */
  ghost function ItemsFrom(root: Item): Item -> bool {
    (it: Item) => |it.dir| >= |root.dir| && (it.typ == Directory || it.callbackDone || it == root)
  }

  lemma ItemsPassDown(cfg: Config, root: Item)
    ensures forall j, i :: ItemsFrom(root)(j) && 0 <= i < |Kids(cfg)(j)| ==> ItemsFrom(root)(Kids(cfg)(j)[i])
  {
    forall j, i | ItemsFrom(root)(j) && 0 <= i < |Kids(cfg)(j)|
      ensures ItemsFrom(root)(Kids(cfg)(j)[i])
    {
      VisitKids(cfg, j);
      assert Kids(cfg)(j)[i] in Visit(cfg, j).kids;
    }
  }

  lemma VisitSkips(cfg: Config, root: Item, it: Item)
    requires HandsBack(cfg) && ItemsFrom(root)(it)
    ensures Visit(cfg, it).res == SkipDir <==> SkipsAtFile(cfg, root.dir, OwnEvents(cfg)(it))
  {
    var o := ReadEntries(cfg, it, cfg.fs.list(it.dir).entries, false);
    ReadSkips(cfg, root.dir, it, cfg.fs.list(it.dir).entries, false);
    forall c | SkippedFile(cfg, root.dir, c)
      ensures Called(c) in OwnEvents(cfg)(it) <==> IsRead(cfg, it) && Called(c) in o.events
    {
      VisitParts(cfg, it, c);
    }
    VisitParts(cfg, it, ItemCall(it, Nil));
  }

  /** For such a callback, some call of walk in the recursive walk returns SkipDir if and only if some
      entry that is neither directory nor link is answered with SkipDir. */
  lemma SkipDirFromFilesExactly(cfg: Config, root: Item, k: nat)
    requires HandsBack(cfg)
    ensures SkipDir in SeqResults(cfg, root, k) <==> SkipsAtFile(cfg, root.dir, SeqWalk(cfg, root, k))
  {
    ItemsPassDown(cfg, root);
    if SkipDir in SeqResults(cfg, root, k) {
      var it := GatherOwner(Kids(cfg), OwnResult(cfg), OwnEvents(cfg), root, k, SkipDir, ItemsFrom(root));
      VisitSkips(cfg, root, it);
    }
    if SkipsAtFile(cfg, root.dir, SeqWalk(cfg, root, k)) {
      var c :| Called(c) in SeqWalk(cfg, root, k) && SkippedFile(cfg, root.dir, c);
      var it := GatherOwner(Kids(cfg), OwnEvents(cfg), OwnResult(cfg), root, k, Called(c), ItemsFrom(root));
      VisitSkips(cfg, root, it);
      assert SkipDir in OwnResult(cfg)(it);
    }
  }

  /** So Walk returns SkipDir under such a callback only if it answers such an entry with it; it then
      fails in any case, and if no other error competes, with SkipDir. */
  lemma SkipDirReturnedForFiles(cfg: Config, acts: seq<Action>, s: State, root: Item, k: nat)
    requires Starts(cfg, root) && HandsBack(cfg) && SeqTerminates(cfg, root, k)
    requires Run(cfg, Init(cfg), acts, s) && s.coord.Returned?
    ensures s.coord.err == SkipDir ==> SkipsAtFile(cfg, root.dir, SeqWalk(cfg, root, k))
    ensures SkipsAtFile(cfg, root.dir, SeqWalk(cfg, root, k)) ==>
              s.coord.err != Nil && s.coord.err in SeqResults(cfg, root, k)
    ensures (forall e :: e in SeqResults(cfg, root, k) ==> e == Nil || e == SkipDir) ==>
              (s.coord.err == SkipDir <==> SkipsAtFile(cfg, root.dir, SeqWalk(cfg, root, k)))
  {
    WhatWalkReturns(cfg, acts, s, root, k);
    SkipDirFromFilesExactly(cfg, root, k);
  }

  lemma {:induction false} ChainHasItems(cfg: Config, root: Item, c: seq<Item>)
    requires Chain(cfg, root, c)
    ensures ItemsFrom(root)(Last(c))
    decreases |c|
  {
    if |c| > 1 {
      ChainAbove(cfg, root, c);
      ChainHasItems(cfg, root, Above(c));
      ItemsPassDown(cfg, root);
    }
  }

  /** Walk can return SkipDir under such a callback if and only if it answers an entry that is neither
      directory nor link with it, and of the calls of walk above it fewer fail than there are workers. */
  lemma SkipDirCanBeReturnedForFiles(cfg: Config, root: Item)
    requires HandsBack(cfg) && Starts(cfg, root)
    ensures CanReturn(cfg, SkipDir) <==>
              exists c :: Chain(cfg, root, c) && Sum(Above(c), Fails(cfg)) < cfg.numWorkers
                          && SkipsAtFile(cfg, root.dir, OwnEvents(cfg)(Last(c)))
  {
    ReturnsExactly(cfg, root, SkipDir);
    forall c | Chain(cfg, root, c)
      ensures Visit(cfg, Last(c)).res == SkipDir <==> SkipsAtFile(cfg, root.dir, OwnEvents(cfg)(Last(c)))
    {
      ChainHasItems(cfg, root, c);
      VisitSkips(cfg, root, Last(c));
    }
    if Returnable(cfg, root, SkipDir) {
      var c :| ReturnableBy(cfg, root, SkipDir, c);
    }
    if c :| Chain(cfg, root, c) && Sum(Above(c), Fails(cfg)) < cfg.numWorkers
            && SkipsAtFile(cfg, root.dir, OwnEvents(cfg)(Last(c))) {
      assert ReturnableBy(cfg, root, SkipDir, c);
    }
  }

  // ----- an example

  const FILE: DirEnt := DirEnt([102], Regular)

  /** One file "f" in the root; the callback answers SkipDir for it, and returns errors it gets. */
  function Example(numWorkers: nat): Config {
    Config(
      FileSystem(
        (p: Path) => Listing(if p == [] then [FILE] else [], Nil),
        (p: Path) => Some(FileInfo(FileKey(0, |p|), if p == [] then Directory else Regular))),
      [], false, 0, numWorkers,
      (log: seq<Event>, c: Call) => if c.err != Nil then c.err else if c.typ == Directory then Nil else SkipDir)
  }

  /** Every run that ends returns SkipDir. */
  lemma SkipDirExample(numWorkers: nat, acts: seq<Action>, s: State)
    requires numWorkers >= 1
    requires Run(Example(numWorkers), Init(Example(numWorkers)), acts, s) && s.coord.Returned?
    ensures s.coord.err == SkipDir
  {
    var cfg := Example(numWorkers);
    var root := Item([], Directory, 0, false);
    assert [FILE][1..] == [] && Decide(cfg, Regular, [[102]], SkipDir) == Decision(false, SkipDir);
    var o := ReadEntries(cfg, root, [FILE], false);
    assert o.kids == [] && o.res == SkipDir;
    assert Visit(cfg, root).kids == [] && Visit(cfg, root).res == SkipDir;
    assert Kids(cfg)(root) == [];
    assert SeqTerminates(cfg, root, 1);
    assert SeqResults(cfg, root, 1) == [SkipDir];
    assert SkipDir in SeqResults(cfg, root, 1);
    WhatWalkReturns(cfg, acts, s, root, 1);
  }
}
