/** What a walk visits when the callback prunes nothing: all entries, through real directories and the
    links that are traversed, and with an effective MaxDepth all that are at most that deep. */
module Unpruned {
  import opened Entries
  import opened Protocol
  import opened Ledger
  import opened SequentialWalk
  import opened Refinement
  import opened Ownership
  import D = Depth

  /** The callback prunes nothing: it answers nil, or ErrTraverseLink for a link that is not the
      root. */
  ghost predicate NeverPrunes(cfg: Config, root: Item) {
    && Pure(cfg)
    && forall c :: Answer(cfg, c) == Nil
                   || (Answer(cfg, c) == TraverseLink && c.typ == Symlink && c.err == Nil && c.path != root.dir)
  }

  ghost predicate Unpruned(cfg: Config, root: Item) {
    NeverPrunes(cfg, root) && Starts(cfg, root)
  }

  // ----- what there is to visit

  /** The depth of an entry is held in 32 bits. */
  function DepthAt(root: Item, p: Path): nat
    requires |root.dir| <= |p|
  {
    (|p| - |root.dir|) % DEPTH_MODULUS
  }

  function VisitCall(root: Item, p: Path, typ: FileType): Call
    requires |root.dir| <= |p|
  {
    Call(p, typ, DepthAt(root, p), Nil)
  }

  /** A depth limit matters only if it is positive and fits in 32 bits. */
  predicate Within(cfg: Config, root: Item, p: Path) {
    D.Effective(cfg) ==> |p| - |root.dir| <= cfg.maxDepth
  }

  /** The walk goes on below an entry that gets the call `c`: it is a directory, or a link that the
      callback or Follow wants traversed. */
  predicate Entered(cfg: Config, c: Call) {
    c.typ == Directory || Decide(cfg, c.typ, c.path, Answer(cfg, c)).enqueue
  }

  /** `p` leads from the root through entered directories to an entry of type `typ`. */
  ghost predicate Seen(cfg: Config, root: Item, p: Path, typ: FileType)
    decreases |p|
  {
    if p == root.dir then typ == root.typ
    else
      && |p| > |root.dir|
      && DirEnt(p[|p| - 1], typ) in cfg.fs.list(Parent(p)).entries
      && var parent := Parent(p);
         || parent == root.dir
         || Seen(cfg, root, parent, Directory)
         || (Seen(cfg, root, parent, Symlink) && Entered(cfg, VisitCall(root, parent, Symlink)))
  }

  ghost predicate Below(cfg: Config, root: Item, p: Path, typ: FileType) {
    Seen(cfg, root, p, typ) && Within(cfg, root, p)
  }

  // ----- what handling one item does

  /** The loop of readDir: directories and traversed links are queued, all but directories get a
      call, and a read error gets a second one for the directory. */
  lemma {:induction false} UnprunedEntries(cfg: Config, root: Item, it: Item, rest: seq<DirEnt>)
    requires NeverPrunes(cfg, root)
    ensures var o := ReadEntries(cfg, it, rest, false);
            && o.res == Nil
            && (forall x :: x in o.kids <==>
                exists e :: e in rest && Entered(cfg, EntryCall(it, e)) && x == ChildItem(it, e))
            && (forall c :: Called(c) in o.events && c.err == Nil <==>
                  exists e :: e in rest && e.typ != Directory && c == EntryCall(it, e))
            && (forall c :: Called(c) in o.events && c.err != Nil ==> c == ItemCall(it, cfg.fs.list(it.dir).err))
    decreases |rest|
  {
    if rest == [] {
    } else {
      var e, tail := rest[0], rest[1..];
      var o, o' := ReadEntries(cfg, it, rest, false), ReadEntries(cfg, it, tail, false);
      UnprunedEntries(cfg, root, it, tail);
      assert forall x :: x in rest <==> x == e || x in tail;
      UnprunedEntry(cfg, root, it, rest);
    }
  }

  lemma UnprunedEntry(cfg: Config, root: Item, it: Item, rest: seq<DirEnt>)
    requires NeverPrunes(cfg, root) && rest != []
    ensures var e := rest[0];
            var o, o' := ReadEntries(cfg, it, rest, false), ReadEntries(cfg, it, rest[1..], false);
            && o.res == o'.res
            && o.kids == (if Entered(cfg, EntryCall(it, e)) then [ChildItem(it, e)] else []) + o'.kids
            && o.events == (if e.typ == Directory then [] else [Called(EntryCall(it, e))]) + o'.events
  {
  }

  /** The item an entered entry becomes. */
  function EnteredItem(root: Item, p: Path, typ: FileType): Item
    requires |root.dir| <= |p|
  {
    if p == root.dir then root else Item(p, typ, DepthAt(root, p), typ != Directory)
  }

  /** The items such a walk handles. */
  ghost predicate SeenItem(cfg: Config, root: Item, it: Item) {
    && |root.dir| <= |it.dir| && Within(cfg, root, it.dir)
    && it == EnteredItem(root, it.dir, it.typ)
    && (it != root ==> Seen(cfg, root, it.dir, it.typ) && Entered(cfg, VisitCall(root, it.dir, it.typ)))
  }

  lemma DepthOneDown(root: Item, p: Path, name: Name)
    requires |root.dir| <= |p|
    ensures DepthAt(root, p + [name]) == ChildDepth(DepthAt(root, p))
  {
  }

  /** The depth check holds below an effective limit, and above any other. */
  lemma LimitIsDepth(cfg: Config, root: Item, it: Item)
    requires Unpruned(cfg, root) && SeenItem(cfg, root, it)
    ensures DepthLimited(cfg, it) <==> D.Effective(cfg) && |it.dir| - |root.dir| == cfg.maxDepth
  {
    assert it.depth == DepthAt(root, it.dir);
  }

  /** An entry of a seen directory that is not at the limit. */
  lemma SeenEntry(cfg: Config, root: Item, it: Item, e: DirEnt)
    requires Unpruned(cfg, root) && SeenItem(cfg, root, it) && !DepthLimited(cfg, it)
    requires e in cfg.fs.list(it.dir).entries
    ensures var c := EntryCall(it, e);
            && |root.dir| < |c.path| && c == VisitCall(root, c.path, c.typ)
            && Below(cfg, root, c.path, c.typ)
            && ChildItem(it, e) == EnteredItem(root, c.path, c.typ)
  {
    assert Parent(it.dir + [e.name]) == it.dir;
    EnteredIsDirOrLink(cfg, root, it);
    DepthOneDown(root, it.dir, e.name);
    LimitIsDepth(cfg, root, it);
  }

  lemma EnteredIsDirOrLink(cfg: Config, root: Item, it: Item)
    requires SeenItem(cfg, root, it)
    ensures it == root || it.typ == Directory || (it.typ == Symlink && it.callbackDone)
  {
  }

  lemma SeenKids(cfg: Config, root: Item, it: Item, i: nat)
    requires Unpruned(cfg, root) && SeenItem(cfg, root, it) && i < |Visit(cfg, it).kids|
    ensures SeenItem(cfg, root, Visit(cfg, it).kids[i])
  {
    var entries := cfg.fs.list(it.dir).entries;
    var kid := Visit(cfg, it).kids[i];
    UnprunedEntries(cfg, root, it, entries);
    assert kid in ReadEntries(cfg, it, entries, false).kids;
    var e :| e in entries && Entered(cfg, EntryCall(it, e)) && kid == ChildItem(it, e);
    SeenEntry(cfg, root, it, e);
  }

  lemma ReadDirEvents(cfg: Config, it: Item)
    ensures var o := ReadEntries(cfg, it, cfg.fs.list(it.dir).entries, false);
            && ReadDir(cfg, it).events == (if DepthLimited(cfg, it) then [] else [Opened(it.dir)] + o.events)
            && ReadDir(cfg, it).res == if DepthLimited(cfg, it) then Nil else o.res
  {
  }

  lemma VisitEvents(cfg: Config, it: Item)
    requires it.callbackDone || Answer(cfg, ItemCall(it, Nil)) == Nil
    ensures Visit(cfg, it).events
         == (if it.callbackDone then [] else [Called(ItemCall(it, Nil))]) + ReadDir(cfg, it).events
    ensures Visit(cfg, it).res == ReadDir(cfg, it).res
  {
  }

  /** What is logged for one seen item. */
  lemma ItemEvents(cfg: Config, root: Item, it: Item)
    requires NeverPrunes(cfg, root) && (it.typ == Directory || it == root || it.callbackDone)
    ensures var o := ReadEntries(cfg, it, cfg.fs.list(it.dir).entries, false);
            && OwnEvents(cfg)(it)
               == [Picked(it)]
                  + (if it.callbackDone then [] else [Called(ItemCall(it, Nil))])
                  + (if DepthLimited(cfg, it) then [] else [Opened(it.dir)] + o.events)
            && Visit(cfg, it).res == if DepthLimited(cfg, it) then Nil else o.res
  {
    assert !it.callbackDone ==> Answer(cfg, ItemCall(it, Nil)) == Nil;
    VisitEvents(cfg, it);
    ReadDirEvents(cfg, it);
    var call := if it.callbackDone then [] else [Called(ItemCall(it, Nil))];
    assert [Picked(it)] + (call + ReadDir(cfg, it).events) == [Picked(it)] + call + ReadDir(cfg, it).events;
  }

  /** The calls made for one seen item. */
  lemma UnprunedItem(cfg: Config, root: Item, it: Item, c: Call)
    requires Unpruned(cfg, root) && SeenItem(cfg, root, it)
    ensures Visit(cfg, it).res == Nil
    ensures c.err == Nil ==>
              (Called(c) in OwnEvents(cfg)(it) <==>
               || (!it.callbackDone && c == ItemCall(it, Nil))
               || (!DepthLimited(cfg, it)
                   && exists e :: e in cfg.fs.list(it.dir).entries && e.typ != Directory && c == EntryCall(it, e)))
    ensures c.err != Nil && Called(c) in OwnEvents(cfg)(it) ==> c == ItemCall(it, cfg.fs.list(it.dir).err)
  {
    EnteredIsDirOrLink(cfg, root, it);
    ItemEvents(cfg, root, it);
    UnprunedEntries(cfg, root, it, cfg.fs.list(it.dir).entries);
  }

  // ----- from items to the whole walk

  /** An item that is picked up in the walk of `it` has all its events there. */
  lemma {:induction false} PickedOwns(cfg: Config, it: Item, k: nat, j: Item, x: Event)
    requires Picked(j) in SeqWalk(cfg, it, k) && x in OwnEvents(cfg)(j)
    ensures x in SeqWalk(cfg, it, k)
    decreases k, 0
  {
    if j != it {
      assert Picked(j) !in OwnEvents(cfg)(it) by {
        VisitPicksNothing(cfg, it);
      }
      PickedOwnsAll(cfg, Kids(cfg)(it), k - 1, j, x);
    }
  }

  lemma {:induction false} PickedOwnsAll(cfg: Config, items: seq<Item>, k: nat, j: Item, x: Event)
    requires Picked(j) in GatherAll(Kids(cfg), OwnEvents(cfg), items, k) && x in OwnEvents(cfg)(j)
    ensures x in GatherAll(Kids(cfg), OwnEvents(cfg), items, k)
    decreases k, |items| + 1
  {
    if Picked(j) in Gather(Kids(cfg), OwnEvents(cfg), items[0], k) {
      PickedOwns(cfg, items[0], k, j, x);
    } else {
      PickedOwnsAll(cfg, items[1..], k, j, x);
    }
  }

  lemma VisitPicksNothing(cfg: Config, it: Item)
    ensures forall e :: e in Visit(cfg, it).events ==> !e.Picked?
  {
    EntriesPickNothing(cfg, it, cfg.fs.list(it.dir).entries, false);
  }

  lemma {:induction false} EntriesPickNothing(cfg: Config, it: Item, rest: seq<DirEnt>, skipFiles: bool)
    ensures forall e :: e in ReadEntries(cfg, it, rest, skipFiles).events ==> !e.Picked?
    decreases |rest|
  {
    if rest == [] {
    } else {
      EntriesPickNothing(cfg, it, rest[1..], skipFiles);
      EntriesPickNothing(cfg, it, rest[1..], true);
    }
  }

  ghost function SeenItems(cfg: Config, root: Item): Item -> bool {
    (it: Item) => SeenItem(cfg, root, it)
  }

  lemma SeenItemsPassDown(cfg: Config, root: Item)
    requires Unpruned(cfg, root)
    ensures SeenItems(cfg, root)(root)
    ensures forall j, i :: SeenItems(cfg, root)(j) && 0 <= i < |Kids(cfg)(j)| ==> SeenItems(cfg, root)(Kids(cfg)(j)[i])
  {
    forall j, i | SeenItems(cfg, root)(j) && 0 <= i < |Kids(cfg)(j)|
      ensures SeenItems(cfg, root)(Kids(cfg)(j)[i])
    {
      SeenKids(cfg, root, j, i);
    }
  }

  /** Only entries within MaxDepth are visited, and only read errors are reported. */
  lemma VisitedIsBelow(cfg: Config, root: Item, k: nat, c: Call)
    requires Unpruned(cfg, root) && Called(c) in SeqWalk(cfg, root, k)
    ensures |root.dir| <= |c.path| && c == VisitCall(root, c.path, c.typ).(err := c.err)
    ensures c.err == Nil ==> Below(cfg, root, c.path, c.typ)
    ensures c.err != Nil ==> c.err == cfg.fs.list(c.path).err
  {
    SeenItemsPassDown(cfg, root);
    var it := GatherOwner(Kids(cfg), OwnEvents(cfg), OwnEvents(cfg), root, k, Called(c), SeenItems(cfg, root));
    CallIsBelow(cfg, root, it, c);
  }

  lemma CallIsBelow(cfg: Config, root: Item, it: Item, c: Call)
    requires Unpruned(cfg, root) && SeenItem(cfg, root, it) && Called(c) in OwnEvents(cfg)(it)
    ensures |root.dir| <= |c.path| && c == VisitCall(root, c.path, c.typ).(err := c.err)
    ensures c.err == Nil ==> Below(cfg, root, c.path, c.typ)
    ensures c.err != Nil ==> c.err == cfg.fs.list(c.path).err
  {
    UnprunedItem(cfg, root, it, c);
    if c.err == Nil && !(!it.callbackDone && c == ItemCall(it, Nil)) {
      var e :| e in cfg.fs.list(it.dir).entries && e.typ != Directory && c == EntryCall(it, e);
      SeenEntry(cfg, root, it, e);
    } else {
      assert c == ItemCall(it, c.err) && it.depth == DepthAt(root, it.dir);
    }
  }

  /** Every entered entry within MaxDepth is picked up. */
  lemma {:induction false} EnteredPicked(cfg: Config, root: Item, log: seq<Event>, p: Path, typ: FileType)
    requires Unpruned(cfg, root) && PickedClosed(cfg, log) && Picked(root) in log
    requires |root.dir| <= |p| && (p == root.dir || (Below(cfg, root, p, typ) && Entered(cfg, VisitCall(root, p, typ))))
    ensures SeenItem(cfg, root, EnteredItem(root, p, typ))
    ensures Picked(EnteredItem(root, p, typ)) in log
    decreases |p|
  {
    if p != root.dir {
      var it := ParentPicked(cfg, root, log, p, typ);
      var e := DirEnt(p[|p| - 1], typ);
      assert it.dir + [e.name] == p;
      SeenEntry(cfg, root, it, e);
      KidPicked(cfg, root, log, it, e);
    }
  }

  lemma KidPicked(cfg: Config, root: Item, log: seq<Event>, it: Item, e: DirEnt)
    requires Unpruned(cfg, root) && SeenItem(cfg, root, it) && !DepthLimited(cfg, it)
    requires PickedClosed(cfg, log) && Picked(it) in log
    requires e in cfg.fs.list(it.dir).entries && Entered(cfg, EntryCall(it, e))
    ensures Picked(ChildItem(it, e)) in log
  {
    EnteredIsDirOrLink(cfg, root, it);
    ItemEvents(cfg, root, it);
    UnprunedEntries(cfg, root, it, cfg.fs.list(it.dir).entries);
    assert ChildItem(it, e) in Visit(cfg, it).kids;
  }

  /** ... and so is the directory that a seen entry is in. */
  lemma {:induction false} ParentPicked(cfg: Config, root: Item, log: seq<Event>, p: Path, typ: FileType)
    returns (it: Item)
    requires Unpruned(cfg, root) && PickedClosed(cfg, log) && Picked(root) in log
    requires Below(cfg, root, p, typ) && p != root.dir
    ensures it.dir == Parent(p) && SeenItem(cfg, root, it) && !DepthLimited(cfg, it) && Picked(it) in log
    decreases |p|, 0
  {
    var parent := Parent(p);
    var dirTyp := if Seen(cfg, root, parent, Directory) then Directory else Symlink;
    EnteredPicked(cfg, root, log, parent, dirTyp);
    it := EnteredItem(root, parent, dirTyp);
    LimitIsDepth(cfg, root, it);
  }

  /** Each seen entry is called for by a seen item: itself, or the directory it is in. */
  lemma BelowHasCaller(cfg: Config, root: Item, log: seq<Event>, p: Path, typ: FileType) returns (it: Item)
    requires Unpruned(cfg, root) && PickedClosed(cfg, log) && Picked(root) in log
    requires Below(cfg, root, p, typ) && |root.dir| <= |p|
    ensures Picked(it) in log && Called(VisitCall(root, p, typ)) in OwnEvents(cfg)(it)
  {
    if p == root.dir || typ == Directory {
      EnteredPicked(cfg, root, log, p, typ);
      it := EnteredItem(root, p, typ);
      ItemIsCalled(cfg, root, p, typ);
    } else {
      it := ParentPicked(cfg, root, log, p, typ);
      assert it.dir + [p[|p| - 1]] == p;
      EntryIsCalled(cfg, root, it, DirEnt(p[|p| - 1], typ));
    }
  }

  lemma ItemIsCalled(cfg: Config, root: Item, p: Path, typ: FileType)
    requires Unpruned(cfg, root) && |root.dir| <= |p| && SeenItem(cfg, root, EnteredItem(root, p, typ))
    requires if p == root.dir then typ == root.typ else typ == Directory
    ensures Called(VisitCall(root, p, typ)) in OwnEvents(cfg)(EnteredItem(root, p, typ))
  {
    var it := EnteredItem(root, p, typ);
    UnprunedItem(cfg, root, it, ItemCall(it, Nil));
  }

  lemma EntryIsCalled(cfg: Config, root: Item, it: Item, e: DirEnt)
    requires Unpruned(cfg, root) && SeenItem(cfg, root, it) && !DepthLimited(cfg, it)
    requires e in cfg.fs.list(it.dir).entries && e.typ != Directory
    ensures Called(VisitCall(root, it.dir + [e.name], e.typ)) in OwnEvents(cfg)(it)
  {
    SeenEntry(cfg, root, it, e);
    UnprunedItem(cfg, root, it, EntryCall(it, e));
  }

  /** Every entry within MaxDepth is visited. */
  lemma BelowIsVisited(cfg: Config, root: Item, k: nat, log: seq<Event>, p: Path, typ: FileType)
    requires Unpruned(cfg, root) && PickedClosed(cfg, log) && Picked(root) in log
    requires multiset(log) == multiset(SeqWalk(cfg, root, k))
    requires Below(cfg, root, p, typ) && |root.dir| <= |p|
    ensures Called(VisitCall(root, p, typ)) in log
  {
    var it := BelowHasCaller(cfg, root, log, p, typ);
    assert Picked(it) in multiset(log);
    PickedOwns(cfg, root, k, it, Called(VisitCall(root, p, typ)));
    assert Called(VisitCall(root, p, typ)) in multiset(SeqWalk(cfg, root, k));
  }

  lemma {:induction false} CallsCounted(log: seq<Event>, c: Call)
    requires c.err == Nil
    ensures multiset(log)[Called(c)] <= Sum(log, IsCallFor(c.path))
  {
    if log == [] {
    } else {
      assert log == [log[0]] + log[1..];
      CallsCounted(log[1..], c);
    }
  }

  // ----- nothing fails

  /** Only directories, the root, and links that have been decided on become items. */
  predicate MayEnter(root: Item, it: Item) {
    it.typ == Directory || it.callbackDone || it.dir == root.dir
  }

  predicate Succeeds(root: Item, w: Worker) {
    match w
    case Entering(it) => MayEnter(root, it)
    case Enqueueing(_, _, _, pending) => MayEnter(root, pending)
    case Sending(res) => res == Nil
    case Reporting(_, err) => err != Nil
    case _ => true
  }

  ghost predicate NoFailure(root: Item, s: State) {
    && Everywhere(s, it => MayEnter(root, it), w => Succeeds(root, w))
    && (forall res :: res in s.resc ==> res == Nil)
    && (Closed(s) ==> s.coord.err == Nil)
  }

  lemma GoSucceeds(cfg: Config, root: Item, w: Worker, log: seq<Event>)
    requires NeverPrunes(cfg, root) && Active(w) && Succeeds(root, w)
    ensures Succeeds(root, Advance(cfg, w, log).next)
  {
    if w.Entering? {
      EnterMoves(cfg, w.it, log);
      assert cfg.fn(log, ItemCall(w.it, Nil)) == Answer(cfg, ItemCall(w.it, Nil));
    } else if w.Reporting? {
      assert cfg.fn(log, ItemCall(w.it, w.err)) == Answer(cfg, ItemCall(w.it, w.err));
    } else if w.rest != [] {
      EntryMoves(cfg, w, log);
    }
  }

  lemma StepSucceeds(cfg: Config, root: Item, s: State, a: Action)
    requires NeverPrunes(cfg, root) && NoFailure(root, s) && Enabled(cfg, s, a)
    ensures NoFailure(root, Apply(cfg, s, a))
  {
    if a.Go? {
      GoSucceeds(cfg, root, s.workers[a.i], s.log);
    } else {
      ChannelKeeps(cfg, s, a, it => MayEnter(root, it), w => Succeeds(root, w));
      ResultsSucceed(cfg, root, s, a);
    }
  }

  lemma ResultsSucceed(cfg: Config, root: Item, s: State, a: Action)
    requires NoFailure(root, s) && Enabled(cfg, s, a)
    ensures var s' := Apply(cfg, s, a);
            (forall res :: res in s'.resc ==> res == Nil) && (Closed(s') ==> s'.coord.err == Nil)
  {
    if a.Deliver? {
      assert Succeeds(root, s.workers[a.i]);
    } else if a.Receive? {
      assert s.resc[0] in s.resc && forall res :: res in s.resc[1..] ==> res in s.resc;
    }
  }

  lemma {:induction false} RunSucceeds(cfg: Config, root: Item, s: State, acts: seq<Action>, s': State)
    requires NeverPrunes(cfg, root) && NoFailure(root, s) && Run(cfg, s, acts, s')
    ensures NoFailure(root, s')
    decreases |acts|
  {
    if acts != [] {
      StepSucceeds(cfg, root, s, acts[0]);
      RunSucceeds(cfg, root, Apply(cfg, s, acts[0]), acts[1..], s');
    }
  }

  lemma UnprunedReturnsNil(cfg: Config, root: Item, acts: seq<Action>, s: State)
    requires Unpruned(cfg, root) && Run(cfg, Init(cfg), acts, s) && s.coord.Returned?
    ensures s.coord.err == Nil
  {
    RunSucceeds(cfg, root, Init(cfg), acts, s);
  }

  // ----- the theorem

  /** With a callback that prunes nothing, every run that ends, Follow on or off, with any MaxDepth or
      none, with read errors and cycles of links, returns nil; it has called the callback without an
      error exactly once for each entry (at depth at most MaxDepth, if that is positive and less than
      2^32) and for nothing else, and with an error only to report one from reading a directory. */
  lemma VisitsExactly(cfg: Config, root: Item, acts: seq<Action>, s: State, p: Path, typ: FileType)
    requires NeverPrunes(cfg, root) && Starts(cfg, root) && UniquelyNamed(cfg.fs)
    requires Run(cfg, Init(cfg), acts, s) && s.coord.Returned?
    ensures s.coord.err == Nil
    ensures |root.dir| <= |p| ==>
              multiset(s.log)[Called(VisitCall(root, p, typ))] == if Below(cfg, root, p, typ) then 1 else 0
    ensures forall c :: Called(c) in s.log ==>
              && |root.dir| <= |c.path| && c == VisitCall(root, c.path, c.typ).(err := c.err)
              && (c.err != Nil ==> c.err == cfg.fs.list(c.path).err)
  {
    UnprunedReturnsNil(cfg, root, acts, s);
    var k := NilReturnIsSequentialWalk(cfg, acts, s, root);
    forall c | Called(c) in s.log
      ensures |root.dir| <= |c.path| && c == VisitCall(root, c.path, c.typ).(err := c.err)
      ensures c.err != Nil ==> c.err == cfg.fs.list(c.path).err
      ensures c.err == Nil ==> Below(cfg, root, c.path, c.typ)
    {
      assert Called(c) in multiset(s.log);
      VisitedIsBelow(cfg, root, k, c);
    }
    if |root.dir| <= |p| {
      VisitedOnce(cfg, root, acts, s, k, p, typ);
    }
  }

  lemma VisitedOnce(cfg: Config, root: Item, acts: seq<Action>, s: State, k: nat, p: Path, typ: FileType)
    requires Unpruned(cfg, root) && UniquelyNamed(cfg.fs) && |root.dir| <= |p|
    requires Run(cfg, Init(cfg), acts, s) && s.coord == Returned(Nil)
    requires multiset(s.log) == multiset(SeqWalk(cfg, root, k))
    ensures multiset(s.log)[Called(VisitCall(root, p, typ))] <= 1
    ensures Below(cfg, root, p, typ) ==> multiset(s.log)[Called(VisitCall(root, p, typ))] == 1
  {
    CalledOnce(cfg, acts, s, p);
    CallsCounted(s.log, VisitCall(root, p, typ));
    if Below(cfg, root, p, typ) {
      NilReturnPickedAll(cfg, acts, s, root);
      BelowIsVisited(cfg, root, k, s.log, p, typ);
      assert Called(VisitCall(root, p, typ)) in multiset(s.log);
    }
  }
}
