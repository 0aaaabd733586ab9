/** The reading of a directory in the walk is the loop of readDir, with onDirEnt in its place. */
module DirectoryLoop {
  import opened Entries
  import opened Protocol
  import opened SequentialWalk
  import R = DirReader
  import Sorting

  /** What onDirEnt returns to readDir. */
  ghost function OnDirEnt(cfg: Config, it: Item): R.OnDirEnt {
    (passed: seq<DirEnt>, e: DirEnt) =>
      if e.typ == Directory then Nil
      else Decide(cfg, e.typ, it.dir + [e.name], Answer(cfg, EntryCall(it, e))).err
  }

  /** The callbacks for the entries that onDirEnt gets. */
  function CallsFor(it: Item, entries: seq<DirEnt>): seq<Event> {
    if entries == [] then []
    else
      (if entries[0].typ == Directory then [] else [Called(EntryCall(it, entries[0]))])
      + CallsFor(it, entries[1..])
  }

  /** The items queued for them. */
  ghost function KidsFor(cfg: Config, it: Item, entries: seq<DirEnt>): seq<Item> {
    if entries == [] then []
    else
      (if Queues(cfg, it, entries[0]) then [ChildItem(it, entries[0])] else [])
      + KidsFor(cfg, it, entries[1..])
  }

  ghost predicate Queues(cfg: Config, it: Item, e: DirEnt) {
    e.typ == Directory || Decide(cfg, e.typ, it.dir + [e.name], Answer(cfg, EntryCall(it, e))).enqueue
  }

  lemma ForFirst(cfg: Config, it: Item, e: DirEnt, rest: seq<DirEnt>)
    ensures CallsFor(it, [e] + rest)
         == (if e.typ == Directory then [] else [Called(EntryCall(it, e))]) + CallsFor(it, rest)
    ensures KidsFor(cfg, it, [e] + rest)
         == (if Queues(cfg, it, e) then [ChildItem(it, e)] else []) + KidsFor(cfg, it, rest)
  {
    assert ([e] + rest)[1..] == rest;
  }

  /** Whether an entry is passed on depends neither on what was passed on before, nor does the
      prefix change. */
  lemma {:induction false} FoldFrom(f: R.OnDirEnt, passed: seq<DirEnt>, skipFiles: bool, entries: seq<DirEnt>)
    requires forall p, e :: f(p, e) == f([], e)
    ensures R.Fold(f, passed, skipFiles, entries).passed == passed + R.Fold(f, [], skipFiles, entries).passed
    ensures R.Fold(f, passed, skipFiles, entries).err == R.Fold(f, [], skipFiles, entries).err
    decreases |entries|
  {
    if entries == [] {
    } else {
      var e, rest := entries[0], entries[1..];
      var err := f([], e);
      assert f(passed, e) == err;
      if skipFiles && e.typ == Regular {
        FoldFrom(f, passed, skipFiles, rest);
      } else if err == Nil || err == SkipFiles {
        FoldFrom(f, passed + [e], skipFiles || err == SkipFiles, rest);
        FoldFrom(f, [e], skipFiles || err == SkipFiles, rest);
        assert [] + [e] == [e];
      } else {
        assert [] + [e] == [e];
      }
    }
  }

  /** The walk's reading `o` does what the loop's visits `v` mean. */
  ghost predicate Means(cfg: Config, it: Item, v: R.Visits, o: Outcome) {
    var end := Finish(cfg, it, if v.err != Nil then v.err else cfg.fs.list(it.dir).err);
    && o.events == CallsFor(it, v.passed) + end.events
    && o.kids == KidsFor(cfg, it, v.passed)
    && o.res == end.res
  }

  ghost predicate Agree(cfg: Config, it: Item, entries: seq<DirEnt>, skipFiles: bool) {
    Means(cfg, it, R.Fold(OnDirEnt(cfg, it), [], skipFiles, entries), ReadEntries(cfg, it, entries, skipFiles))
  }

  lemma OneMore(cfg: Config, it: Item, e: DirEnt, v: R.Visits, o: Outcome, o': Outcome)
    requires Means(cfg, it, v, o) && o'.res == o.res
    requires o'.events == (if e.typ == Directory then [] else [Called(EntryCall(it, e))]) + o.events
    requires o'.kids == (if Queues(cfg, it, e) then [ChildItem(it, e)] else []) + o.kids
    ensures Means(cfg, it, R.Visits([e] + v.passed, v.err), o')
  {
    ForFirst(cfg, it, e, v.passed);
  }

  /** One entry that is passed on and does not end the loop. */
  lemma PassedEntry(cfg: Config, it: Item, e: DirEnt, rest: seq<DirEnt>, skipFiles: bool, skip: bool)
    requires !(skipFiles && e.typ == Regular) && Agree(cfg, it, rest, skip)
    requires var err := OnDirEnt(cfg, it)([], e);
             (err == Nil && skip == skipFiles) || (err == SkipFiles && skip)
    ensures Agree(cfg, it, [e] + rest, skipFiles)
  {
    var f := OnDirEnt(cfg, it);
    var v := R.Fold(f, [], skip, rest);
    FoldStep(cfg, it, e, rest, skipFiles, skip);
    ReadStep(cfg, it, e, rest, skipFiles, skip);
    OneMore(cfg, it, e, v, ReadEntries(cfg, it, rest, skip), ReadEntries(cfg, it, [e] + rest, skipFiles));
  }

  lemma FoldStep(cfg: Config, it: Item, e: DirEnt, rest: seq<DirEnt>, skipFiles: bool, skip: bool)
    requires !(skipFiles && e.typ == Regular)
    requires var err := OnDirEnt(cfg, it)([], e);
             (err == Nil && skip == skipFiles) || (err == SkipFiles && skip)
    ensures var f := OnDirEnt(cfg, it);
            var v := R.Fold(f, [], skip, rest);
            R.Fold(f, [], skipFiles, [e] + rest) == R.Visits([e] + v.passed, v.err)
  {
    var f := OnDirEnt(cfg, it);
    assert ([e] + rest)[1..] == rest && [] + [e] == [e];
    FoldFrom(f, [e], skip, rest);
  }

  lemma ReadStep(cfg: Config, it: Item, e: DirEnt, rest: seq<DirEnt>, skipFiles: bool, skip: bool)
    requires !(skipFiles && e.typ == Regular)
    requires var err := OnDirEnt(cfg, it)([], e);
             (err == Nil && skip == skipFiles) || (err == SkipFiles && skip)
    ensures var o, o' := ReadEntries(cfg, it, [e] + rest, skipFiles), ReadEntries(cfg, it, rest, skip);
            && o.events == (if e.typ == Directory then [] else [Called(EntryCall(it, e))]) + o'.events
            && o.kids == (if Queues(cfg, it, e) then [ChildItem(it, e)] else []) + o'.kids
            && o.res == o'.res
  {
    assert ([e] + rest)[1..] == rest;
  }

  /** One entry that ends the loop. */
  lemma LastEntry(cfg: Config, it: Item, e: DirEnt, rest: seq<DirEnt>, skipFiles: bool)
    requires !(skipFiles && e.typ == Regular)
    requires OnDirEnt(cfg, it)([], e) != Nil && OnDirEnt(cfg, it)([], e) != SkipFiles
    ensures Agree(cfg, it, [e] + rest, skipFiles)
  {
    assert ([e] + rest)[1..] == rest && [] + [e] == [e];
    ForFirst(cfg, it, e, []);
    assert [e] + [] == [e];
  }

  /** Reading a directory makes the calls for, and queues, exactly what the loop of readDir passes
      on, in that order; and it makes the second call for the directory if the loop or the reading
      ended in an error. */
  lemma {:induction false} ReadingIsTheLoop(cfg: Config, it: Item, entries: seq<DirEnt>, skipFiles: bool)
    ensures var v := R.Fold(OnDirEnt(cfg, it), [], skipFiles, entries);
            var o := ReadEntries(cfg, it, entries, skipFiles);
            var end := Finish(cfg, it, if v.err != Nil then v.err else cfg.fs.list(it.dir).err);
            && o.events == CallsFor(it, v.passed) + end.events
            && o.kids == KidsFor(cfg, it, v.passed)
            && o.res == end.res
    decreases |entries|
  {
    if entries == [] {
    } else {
      var e, rest := entries[0], entries[1..];
      assert entries == [e] + rest;
      var err := OnDirEnt(cfg, it)([], e);
      if skipFiles && e.typ == Regular {
        ReadingIsTheLoop(cfg, it, rest, skipFiles);
      } else if err == Nil || err == SkipFiles {
        var skip := skipFiles || err == SkipFiles;
        ReadingIsTheLoop(cfg, it, rest, skip);
        PassedEntry(cfg, it, e, rest, skipFiles, skip);
      } else {
        LastEntry(cfg, it, e, rest, skipFiles);
      }
    }
  }

  // ----- readDir on a source

  /** The listing of a directory that decodes to `d`: the entries in the order they are passed on, and
      the error that ends them. With sorting, an error means that none is. */
  ghost predicate ListingOf(mode: Sorting.SortMode, d: R.Decoded, l: Listing) {
    if mode == Sorting.SortNone then
      && l.entries == d.entries
      && (d.stop.End? ==> l.err == Nil)
      && (d.stop.Broken? ==> l.err == d.stop.err)
    else if d.stop.Broken? then l == Listing([], d.stop.err)
    else d.stop.End? ==> l.err == Nil && R.SortedOrSame(mode, d.entries, l.entries)
  }

  /** If readDir on a source returns, with `passed` passed on, then in the walk of a directory with that
      listing exactly these entries are called for and queued, and the error is reported. */
  lemma ReadDirIsReading(cfg: Config, it: Item, mode: Sorting.SortMode, d: R.Decoded, passed: seq<DirEnt>, err: Error)
    requires R.Correct(mode, OnDirEnt(cfg, it), d, R.Returns(passed, err))
    requires ListingOf(mode, d, cfg.fs.list(it.dir))
    requires Sorting.Sorts(mode) ==> Sorting.DistinctNames(d.entries)
    requires d.stop.Broken? ==> d.stop.err != Nil
    ensures var o := ReadEntries(cfg, it, cfg.fs.list(it.dir).entries, false);
            && o.events == CallsFor(it, passed) + Finish(cfg, it, err).events
            && o.kids == KidsFor(cfg, it, passed)
            && o.res == Finish(cfg, it, err).res
  {
    var l := cfg.fs.list(it.dir);
    ReadingIsTheLoop(cfg, it, l.entries, false);
    if mode != Sorting.SortNone && d.stop.End? {
      SortedIsListed(cfg, it, mode, d, passed, err);
    }
  }

  lemma SortedIsListed(cfg: Config, it: Item, mode: Sorting.SortMode, d: R.Decoded, passed: seq<DirEnt>, err: Error)
    requires mode != Sorting.SortNone && d.stop.End?
    requires R.Collected(mode, OnDirEnt(cfg, it), d, R.Returns(passed, err))
    requires ListingOf(mode, d, cfg.fs.list(it.dir))
    requires Sorting.Sorts(mode) ==> Sorting.DistinctNames(d.entries)
    ensures R.Fold(OnDirEnt(cfg, it), [], false, cfg.fs.list(it.dir).entries) == R.Visits(passed, err)
  {
    var sorted :| R.SortedOrSame(mode, d.entries, sorted)
                  && R.Returns(passed, err) == R.Folded(OnDirEnt(cfg, it), sorted);
    if Sorting.Sorts(mode) {
      Sorting.SortIsDeterministic(mode, d.entries, d.entries, sorted, cfg.fs.list(it.dir).entries);
    }
  }
}
