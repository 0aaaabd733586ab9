/** Which answers of the callback are errors, and what becomes of them: an error for a directory is what
    Walk returns, an error for another entry ends the reading of its directory and is reported, and so is a
    read error; what the callback answers to a report is what Walk returns. */
module WalkErrors {
  import opened Entries
  import opened Protocol
  import opened SequentialWalk
  import opened Results

  // ----- the answers that are errors

  /** The call for a directory that is to be read, or for the root. */
  predicate ForDirectory(root: Path, c: Call) {
    c.err == Nil && (c.typ == Directory || c.path == root)
  }

  /** The call for an entry that the reading of its directory comes to. */
  predicate ForEntry(root: Path, c: Call) {
    c.err == Nil && c.typ != Directory && c.path != root
  }

  /** The answer `r` to the call for an entry ends the reading of its directory: any error but ErrSkipFiles,
      and for a link, SkipDir and ErrTraverseLink. */
  predicate EndsReading(c: Call, r: Error) {
    r != Nil && r != SkipFiles && (c.typ == Symlink ==> r != SkipDir && r != TraverseLink)
  }

  // ----- the reading of one directory

  /** A call in `events` for an entry whose answer ends the reading. */
  ghost predicate Ends(cfg: Config, events: seq<Event>, c: Call) {
    Called(c) in events && c.err == Nil && EndsReading(c, Answer(cfg, c))
  }

  /** The calls for entries of the directory of `it`. */
  predicate InDirectory(it: Item, c: Call) {
    |c.path| == |it.dir| + 1 && Parent(c.path) == it.dir && c.typ != Directory && c.depth == ChildDepth(it.depth)
  }

  /** `o` reads the directory of `it` until the error `x`, or to its end if `x` is nil. */
  ghost predicate ReadUntil(cfg: Config, it: Item, o: Outcome, x: Error) {
    && o.res == (if x == Nil then Nil else Answer(cfg, ItemCall(it, x)))
    && (forall c :: Called(c) in o.events && c.err != Nil <==> x != Nil && c == ItemCall(it, x))
    && (forall c :: Called(c) in o.events && c.err == Nil ==> InDirectory(it, c))
    && (forall c :: Ends(cfg, o.events, c) ==> Answer(cfg, c) == x)
    && ((forall c :: !Ends(cfg, o.events, c)) ==> x == cfg.fs.list(it.dir).err)
  }

  lemma FinishReads(cfg: Config, it: Item, x: Error)
    ensures var o := Finish(cfg, it, x);
            && o.res == (if x == Nil then Nil else Answer(cfg, ItemCall(it, x)))
            && (forall c :: Called(c) in o.events <==> x != Nil && c == ItemCall(it, x))
  {
    if x != Nil {
      assert Finish(cfg, it, x).events == [Called(ItemCall(it, x))];
    }
  }

  /** A call that goes before. */
  lemma OneMoreRead(cfg: Config, it: Item, c: Call, o: Outcome, o': Outcome, x: Error)
    requires ReadUntil(cfg, it, o, x) && InDirectory(it, c) && c.err == Nil && !EndsReading(c, Answer(cfg, c))
    requires o'.events == [Called(c)] + o.events && o'.res == o.res
    ensures ReadUntil(cfg, it, o', x)
  {
    assert forall d :: Called(d) in o'.events <==> d == c || Called(d) in o.events;
    if forall d :: !Ends(cfg, o'.events, d) {
      forall d
        ensures !Ends(cfg, o.events, d)
      {
        assert !Ends(cfg, o'.events, d);
      }
    }
  }

  /** A call whose answer ends the reading. */
  lemma LastRead(cfg: Config, it: Item, c: Call, o: Outcome)
    requires InDirectory(it, c) && c.err == Nil && EndsReading(c, Answer(cfg, c))
    requires o.events == [Called(c)] + Finish(cfg, it, Answer(cfg, c)).events
    requires o.res == Finish(cfg, it, Answer(cfg, c)).res
    ensures ReadUntil(cfg, it, o, Answer(cfg, c))
  {
    FinishReads(cfg, it, Answer(cfg, c));
    assert forall d :: Called(d) in o.events <==> d == c || d == ItemCall(it, Answer(cfg, c));
    assert Ends(cfg, o.events, c);
  }

  /** What the loop makes of an entry that gets a call. */
  lemma EntryDecided(cfg: Config, it: Item, rest: seq<DirEnt>, skipFiles: bool)
    requires rest != [] && rest[0].typ != Directory && !(skipFiles && rest[0].typ == Regular)
    ensures var o, c := ReadEntries(cfg, it, rest, skipFiles), EntryCall(it, rest[0]);
            var r := Answer(cfg, c);
            if EndsReading(c, r) then
              o.events == [Called(c)] + Finish(cfg, it, r).events && o.res == Finish(cfg, it, r).res
            else
              var more := ReadEntries(cfg, it, rest[1..], skipFiles || r == SkipFiles);
              o.events == [Called(c)] + more.events && o.res == more.res
  {
  }

  lemma {:induction false} Reading(cfg: Config, it: Item, rest: seq<DirEnt>, skipFiles: bool) returns (x: Error)
    ensures ReadUntil(cfg, it, ReadEntries(cfg, it, rest, skipFiles), x)
    decreases |rest|
  {
    if rest == [] {
      x := cfg.fs.list(it.dir).err;
      FinishReads(cfg, it, x);
    } else if skipFiles && rest[0].typ == Regular {
      x := Reading(cfg, it, rest[1..], skipFiles);
    } else if rest[0].typ == Directory {
      x := Reading(cfg, it, rest[1..], skipFiles);
      SameReading(cfg, it, ReadEntries(cfg, it, rest[1..], skipFiles), ReadEntries(cfg, it, rest, skipFiles), x);
    } else {
      var c := EntryCall(it, rest[0]);
      var o := ReadEntries(cfg, it, rest, skipFiles);
      EntryDecided(cfg, it, rest, skipFiles);
      assert InDirectory(it, c);
      if EndsReading(c, Answer(cfg, c)) {
        x := Answer(cfg, c);
        LastRead(cfg, it, c, o);
      } else {
        x := Reading(cfg, it, rest[1..], skipFiles || Answer(cfg, c) == SkipFiles);
        OneMoreRead(cfg, it, c, ReadEntries(cfg, it, rest[1..], skipFiles || Answer(cfg, c) == SkipFiles), o, x);
      }
    }
  }

  lemma SameReading(cfg: Config, it: Item, o: Outcome, o': Outcome, x: Error)
    requires ReadUntil(cfg, it, o, x) && o'.events == o.events && o'.res == o.res
    ensures ReadUntil(cfg, it, o', x)
  {
  }

  // ----- one call of walk

  /** The item is a directory that is read. */
  predicate IsRead(cfg: Config, it: Item) {
    (it.callbackDone || Answer(cfg, ItemCall(it, Nil)) == Nil) && !DepthLimited(cfg, it)
  }

  /** What one call of walk does: it may call for the item, and it may read it. */
  lemma VisitParts(cfg: Config, it: Item, c: Call)
    ensures var o, r := ReadEntries(cfg, it, cfg.fs.list(it.dir).entries, false), Answer(cfg, ItemCall(it, Nil));
            && (Called(c) in OwnEvents(cfg)(it) <==>
                  (!it.callbackDone && c == ItemCall(it, Nil)) || (IsRead(cfg, it) && Called(c) in o.events))
            && Visit(cfg, it).res
               == if IsRead(cfg, it) then o.res
                  else if !it.callbackDone && r != Nil && r != SkipDir then r
                  else Nil
  {
  }

  lemma {:induction false} NoneOpened(cfg: Config, it: Item, rest: seq<DirEnt>, skipFiles: bool)
    ensures forall p :: Opened(p) !in ReadEntries(cfg, it, rest, skipFiles).events
    decreases |rest|
  {
    if rest != [] {
      NoneOpened(cfg, it, rest[1..], skipFiles);
      NoneOpened(cfg, it, rest[1..], true);
    }
  }

  lemma VisitOpens(cfg: Config, it: Item, p: Path)
    ensures Opened(p) in OwnEvents(cfg)(it) <==> IsRead(cfg, it) && p == it.dir
  {
    NoneOpened(cfg, it, cfg.fs.list(it.dir).entries, false);
  }

  /** The items of a walk from `root`. */
  ghost function ItemsBelow(root: Item): Item -> bool {
    (it: Item) =>
      && |it.dir| >= |root.dir|
      && it.depth == (|it.dir| - |root.dir|) % DEPTH_MODULUS
      && (it.typ == Directory || it.callbackDone || it.dir == root.dir)
  }

  lemma {:induction false} KidsBelow(cfg: Config, it: Item, rest: seq<DirEnt>, skipFiles: bool)
    ensures forall x :: x in ReadEntries(cfg, it, rest, skipFiles).kids ==>
              |x.dir| == |it.dir| + 1 && x.depth == ChildDepth(it.depth) && (x.typ == Directory || x.callbackDone)
    decreases |rest|
  {
    if rest != [] {
      KidsBelow(cfg, it, rest[1..], skipFiles);
      KidsBelow(cfg, it, rest[1..], true);
    }
  }

  lemma KidBelow(root: Item, it: Item, x: Item)
    requires ItemsBelow(root)(it) && |x.dir| == |it.dir| + 1 && x.depth == ChildDepth(it.depth)
    requires x.typ == Directory || x.callbackDone
    ensures ItemsBelow(root)(x)
  {
    var n := |it.dir| - |root.dir|;
    assert (n % DEPTH_MODULUS + 1) % DEPTH_MODULUS == (n + 1) % DEPTH_MODULUS;
  }

  lemma ItemsPassDown(cfg: Config, root: Item)
    ensures forall j, i :: ItemsBelow(root)(j) && 0 <= i < |Kids(cfg)(j)| ==> ItemsBelow(root)(Kids(cfg)(j)[i])
  {
    forall j, i | ItemsBelow(root)(j) && 0 <= i < |Kids(cfg)(j)|
      ensures ItemsBelow(root)(Kids(cfg)(j)[i])
    {
      VisitKids(cfg, j);
      assert Kids(cfg)(j)[i] in Visit(cfg, j).kids;
      KidBelow(root, j, Kids(cfg)(j)[i]);
    }
  }

  lemma VisitKids(cfg: Config, it: Item)
    ensures forall x :: x in Visit(cfg, it).kids ==>
              |x.dir| == |it.dir| + 1 && x.depth == ChildDepth(it.depth) && (x.typ == Directory || x.callbackDone)
  {
    KidsBelow(cfg, it, cfg.fs.list(it.dir).entries, false);
  }

  /** The callback answers the call for a directory with `e`, which is not SkipDir. */
  ghost predicate DirectoryFails(cfg: Config, root: Path, events: seq<Event>, e: Error) {
    e != SkipDir && exists c :: Called(c) in events && ForDirectory(root, c) && Answer(cfg, c) == e
  }

  /** The callback answers the report of an error with `e`. */
  ghost predicate ReportFails(cfg: Config, events: seq<Event>, e: Error) {
    exists c :: Called(c) in events && c.err != Nil && Answer(cfg, c) == e
  }

  /** A call of walk results in an error exactly if the callback answers the call for its directory with
      that, or a report. */
  lemma VisitErrors(cfg: Config, root: Item, it: Item, e: Error)
    requires ItemsBelow(root)(it) && e != Nil
    ensures Visit(cfg, it).res == e <==>
              || DirectoryFails(cfg, root.dir, OwnEvents(cfg)(it), e) || ReportFails(cfg, OwnEvents(cfg)(it), e)
  {
    var x := Reading(cfg, it, cfg.fs.list(it.dir).entries, false);
    var own := OwnEvents(cfg)(it);
    forall c
      ensures Called(c) in own && c.err != Nil <==> IsRead(cfg, it) && x != Nil && c == ItemCall(it, x)
      ensures Called(c) in own && ForDirectory(root.dir, c) <==> !it.callbackDone && c == ItemCall(it, Nil)
    {
      VisitParts(cfg, it, c);
    }
    VisitParts(cfg, it, ItemCall(it, Nil));
  }

  // ----- the whole walk

  /** For any callback that is a function of its arguments, the errors that calls of walk result in are
      those that it answers to calls for directories (but for SkipDir) and to reports. */
  lemma ResultsExactly(cfg: Config, root: Item, k: nat, e: Error)
    requires Starts(cfg, root) && e != Nil
    ensures e in SeqResults(cfg, root, k) <==>
              || DirectoryFails(cfg, root.dir, SeqWalk(cfg, root, k), e)
              || ReportFails(cfg, SeqWalk(cfg, root, k), e)
  {
    ItemsPassDown(cfg, root);
    if e in SeqResults(cfg, root, k) {
      var it := GatherOwner(Kids(cfg), OwnResult(cfg), OwnEvents(cfg), root, k, e, ItemsBelow(root));
      VisitErrors(cfg, root, it, e);
    }
    if c :| Called(c) in SeqWalk(cfg, root, k) && Answer(cfg, c) == e
            && (c.err != Nil || (ForDirectory(root.dir, c) && e != SkipDir)) {
      var it := GatherOwner(Kids(cfg), OwnEvents(cfg), OwnResult(cfg), root, k, Called(c), ItemsBelow(root));
      VisitErrors(cfg, root, it, e);
      assert e in OwnResult(cfg)(it);
    }
  }

  /** The callback answers the call for an entry of `p` with `x`, and that ends the reading. */
  ghost predicate EntryFails(cfg: Config, root: Path, events: seq<Event>, p: Path, x: Error) {
    exists c :: Called(c) in events && ForEntry(root, c) && Parent(c.path) == p
                && Answer(cfg, c) == x && EndsReading(c, x)
  }

  /** The directory `p` is read to its end, which is the error `x`. */
  ghost predicate ListingFails(cfg: Config, root: Path, events: seq<Event>, p: Path, x: Error) {
    && Opened(p) in events
    && cfg.fs.list(p).err == x
    && forall c :: Called(c) in events && ForEntry(root, c) && Parent(c.path) == p ==> !EndsReading(c, Answer(cfg, c))
  }

  /** The error `x` is reported for `p`. */
  ghost predicate Reported(events: seq<Event>, p: Path, x: Error) {
    exists c :: Called(c) in events && c.path == p && c.err == x
  }

  /** The calls for entries do not depend on what the item is besides its path. */
  lemma {:induction false} SameEntries(cfg: Config, a: Item, b: Item, rest: seq<DirEnt>, skipFiles: bool)
    requires a.dir == b.dir && a.depth == b.depth
    ensures forall c: Call :: c.err == Nil ==>
              (Called(c) in ReadEntries(cfg, a, rest, skipFiles).events
               <==> Called(c) in ReadEntries(cfg, b, rest, skipFiles).events)
    decreases |rest|
  {
    if rest != [] {
      SameEntries(cfg, a, b, rest[1..], skipFiles);
      SameEntries(cfg, a, b, rest[1..], true);
    }
  }

  /** The calls in one call of walk, apart from the first: with `x` the error that ends the reading. */
  lemma ItemReading(cfg: Config, root: Item, it: Item) returns (x: Error)
    requires ItemsBelow(root)(it)
    ensures var o := ReadEntries(cfg, it, cfg.fs.list(it.dir).entries, false);
            && ReadUntil(cfg, it, o, x)
            && (forall c :: Called(c) in OwnEvents(cfg)(it) && c.err != Nil <==>
                  IsRead(cfg, it) && x != Nil && c == ItemCall(it, x))
            && (forall c :: Called(c) in OwnEvents(cfg)(it) && ForEntry(root.dir, c) <==>
                  IsRead(cfg, it) && c.err == Nil && Called(c) in o.events)
  {
    x := Reading(cfg, it, cfg.fs.list(it.dir).entries, false);
    forall c
      ensures Called(c) in OwnEvents(cfg)(it) && c.err != Nil <==> IsRead(cfg, it) && x != Nil && c == ItemCall(it, x)
      ensures Called(c) in OwnEvents(cfg)(it) && ForEntry(root.dir, c) <==>
                IsRead(cfg, it) && c.err == Nil
                && Called(c) in ReadEntries(cfg, it, cfg.fs.list(it.dir).entries, false).events
    {
      VisitParts(cfg, it, c);
    }
  }

  lemma EntryOwner(cfg: Config, root: Item, k: nat, c: Call) returns (it: Item)
    requires Starts(cfg, root) && Called(c) in SeqWalk(cfg, root, k)
    ensures ItemsBelow(root)(it) && Called(c) in OwnEvents(cfg)(it)
    ensures forall e :: e in OwnEvents(cfg)(it) ==> e in SeqWalk(cfg, root, k)
  {
    ItemsPassDown(cfg, root);
    it := GatherOwner(Kids(cfg), OwnEvents(cfg), OwnEvents(cfg), root, k, Called(c), ItemsBelow(root));
  }

  lemma EntryIsReported(cfg: Config, root: Item, k: nat, c: Call)
    requires Starts(cfg, root) && Called(c) in SeqWalk(cfg, root, k) && ForEntry(root.dir, c)
    requires EndsReading(c, Answer(cfg, c))
    ensures Reported(SeqWalk(cfg, root, k), Parent(c.path), Answer(cfg, c))
  {
    var it := EntryOwner(cfg, root, k, c);
    var x := ItemReading(cfg, root, it);
    assert Ends(cfg, ReadEntries(cfg, it, cfg.fs.list(it.dir).entries, false).events, c);
    assert Called(ItemCall(it, x)) in OwnEvents(cfg)(it);
  }

  lemma ListingIsReported(cfg: Config, root: Item, k: nat, p: Path, x: Error)
    requires Starts(cfg, root) && x != Nil && ListingFails(cfg, root.dir, SeqWalk(cfg, root, k), p, x)
    ensures Reported(SeqWalk(cfg, root, k), p, x)
  {
    ItemsPassDown(cfg, root);
    var it := GatherOwner(Kids(cfg), OwnEvents(cfg), OwnEvents(cfg), root, k, Opened(p), ItemsBelow(root));
    VisitOpens(cfg, it, p);
    var x' := ItemReading(cfg, root, it);
    var o := ReadEntries(cfg, it, cfg.fs.list(it.dir).entries, false);
    forall c
      ensures !Ends(cfg, o.events, c)
    {
      if Called(c) in o.events && c.err == Nil {
        assert Called(c) in OwnEvents(cfg)(it) && ForEntry(root.dir, c);
      }
    }
    assert Called(ItemCall(it, x)) in OwnEvents(cfg)(it);
  }

  /** Other items with the same path make the same calls for its entries. */
  lemma SameCalls(cfg: Config, root: Item, k: nat, it: Item, c: Call)
    requires Starts(cfg, root) && ItemsBelow(root)(it)
    requires Called(c) in SeqWalk(cfg, root, k) && ForEntry(root.dir, c) && Parent(c.path) == it.dir
    ensures c.err == Nil && Called(c) in ReadEntries(cfg, it, cfg.fs.list(it.dir).entries, false).events
  {
    var j := EntryOwner(cfg, root, k, c);
    var x := ItemReading(cfg, root, j);
    assert InDirectory(j, c);
    SameEntries(cfg, it, j, cfg.fs.list(it.dir).entries, false);
  }

  lemma ReportHasReason(cfg: Config, root: Item, k: nat, c: Call)
    requires Starts(cfg, root) && Called(c) in SeqWalk(cfg, root, k) && c.err != Nil
    ensures || EntryFails(cfg, root.dir, SeqWalk(cfg, root, k), c.path, c.err)
            || ListingFails(cfg, root.dir, SeqWalk(cfg, root, k), c.path, c.err)
  {
    var it := EntryOwner(cfg, root, k, c);
    var x := ItemReading(cfg, root, it);
    var o := ReadEntries(cfg, it, cfg.fs.list(it.dir).entries, false);
    assert c == ItemCall(it, x);
    if d :| Ends(cfg, o.events, d) {
      assert InDirectory(it, d) && Called(d) in OwnEvents(cfg)(it) && ForEntry(root.dir, d);
      assert EntryFails(cfg, root.dir, SeqWalk(cfg, root, k), c.path, c.err);
    } else {
      VisitOpens(cfg, it, c.path);
      forall d | Called(d) in SeqWalk(cfg, root, k) && ForEntry(root.dir, d) && Parent(d.path) == c.path
        ensures !EndsReading(d, Answer(cfg, d))
      {
        SameCalls(cfg, root, k, it, d);
        assert !Ends(cfg, o.events, d);
      }
    }
  }

  /** For any callback that is a function of its arguments: an error is reported for a directory exactly if
      the callback answers the call for one of its entries with it and that ends the reading, or if the
      directory was opened, no answer ended its reading, and that ended in the error. */
  lemma ReportedExactly(cfg: Config, root: Item, k: nat, p: Path, x: Error)
    requires Starts(cfg, root) && x != Nil
    ensures Reported(SeqWalk(cfg, root, k), p, x) <==>
              || EntryFails(cfg, root.dir, SeqWalk(cfg, root, k), p, x)
              || ListingFails(cfg, root.dir, SeqWalk(cfg, root, k), p, x)
  {
    var events := SeqWalk(cfg, root, k);
    if c :| Called(c) in events && c.path == p && c.err == x {
      ReportHasReason(cfg, root, k, c);
    }
    if c :| Called(c) in events && ForEntry(root.dir, c) && Parent(c.path) == p
            && Answer(cfg, c) == x && EndsReading(c, x) {
      EntryIsReported(cfg, root, k, c);
    }
    if ListingFails(cfg, root.dir, events, p, x) {
      ListingIsReported(cfg, root, k, p, x);
    }
  }

  // ----- a callback that hands errors back

  /** The callback returns the errors that are reported to it. */
  ghost predicate HandsErrorsBack(cfg: Config) {
    Pure(cfg) && forall c: Call :: c.err != Nil ==> Answer(cfg, c) == c.err
  }

  /** Something in the walk fails with `e`: a directory, an entry, or the reading of a directory. */
  ghost predicate SomethingFails(cfg: Config, root: Path, events: seq<Event>, e: Error) {
    || DirectoryFails(cfg, root, events, e)
    || (exists p :: EntryFails(cfg, root, events, p, e))
    || (exists p :: ListingFails(cfg, root, events, p, e))
  }

  /** Then the errors that calls of walk result in are exactly these. */
  lemma HandedBackExactly(cfg: Config, root: Item, k: nat, e: Error)
    requires Starts(cfg, root) && HandsErrorsBack(cfg) && e != Nil
    ensures e in SeqResults(cfg, root, k) <==> SomethingFails(cfg, root.dir, SeqWalk(cfg, root, k), e)
  {
    var events := SeqWalk(cfg, root, k);
    ResultsExactly(cfg, root, k, e);
    forall p
      ensures Reported(events, p, e) <==>
                EntryFails(cfg, root.dir, events, p, e) || ListingFails(cfg, root.dir, events, p, e)
    {
      ReportedExactly(cfg, root, k, p, e);
    }
    assert ReportFails(cfg, events, e) <==> exists p :: Reported(events, p, e) by {
      if c :| Called(c) in events && c.err != Nil && Answer(cfg, c) == e {
        assert Reported(events, c.path, e);
      }
      if p :| Reported(events, p, e) {
        var c :| Called(c) in events && c.path == p && c.err == e;
        assert Called(c) in events && c.err != Nil && Answer(cfg, c) == e;
      }
    }
  }

  /** So in every interleaving Walk returns nil if and only if nothing fails, and otherwise an error with
      which something does. */
  lemma WalkReturnsFailure(cfg: Config, acts: seq<Action>, s: State, root: Item, k: nat)
    requires Starts(cfg, root) && HandsErrorsBack(cfg) && SeqTerminates(cfg, root, k)
    requires Run(cfg, Init(cfg), acts, s) && s.coord.Returned?
    ensures s.coord.err == Nil <==>
              forall e :: e != Nil ==> !SomethingFails(cfg, root.dir, SeqWalk(cfg, root, k), e)
    ensures s.coord.err != Nil ==> SomethingFails(cfg, root.dir, SeqWalk(cfg, root, k), s.coord.err)
  {
    WhatWalkReturns(cfg, acts, s, root, k);
    forall e | e != Nil
      ensures e in SeqResults(cfg, root, k) <==> SomethingFails(cfg, root.dir, SeqWalk(cfg, root, k), e)
    {
      HandedBackExactly(cfg, root, k, e);
    }
  }
}
