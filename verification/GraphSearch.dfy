/** A walk with one of the adapters: what the calls and the steps of a worker do to the filter, for any
    inner callback. */
module GraphSearch {
  import opened Entries
  import opened Protocol
  import opened Ledger
  import opened Graph
  import A = Adapters

  /** A walk of the files of a graph, with an adapter around the callback `inner`. */
  datatype Search = Search(cfg: Config, g: Graph, kind: A.Kind, inner: A.Inner)

  ghost predicate Wraps(t: Search) {
    && Valid(t.g)
    && t.cfg.fs == FileSystemOf(t.g)
    && t.cfg.fn == A.Wrapped(t.kind, t.cfg.fs, t.inner)
  }

  ghost function Memory(t: Search, log: seq<Event>): A.Memory {
    A.Replay(t.kind, t.cfg.fs, t.inner, A.NOTHING, log)
  }

  ghost function SeenKeys(t: Search, log: seq<Event>): set<FileKey> {
    Memory(t, log).seen
  }

  /** The files that the filter watches. */
  ghost predicate Tracked(t: Search, k: FileKey) {
    t.kind.Files? || IsDir(t.g, k)
  }

  ghost predicate Names(g: Graph, p: Path, k: FileKey) {
    Resolve(g, p) == Some(k)
  }

  ghost predicate NamesDir(g: Graph, p: Path) {
    Resolve(g, p).Some? && IsDir(g, Resolve(g, p).value)
  }

  /** A path that names something goes through directories. */
  lemma {:induction false} PrefixNames(g: Graph, p: Path, i: nat)
    requires i <= |p| && Resolve(g, p).Some?
    ensures Resolve(g, p[..i]).Some?
    decreases |p|
  {
    if i == |p| {
      assert p[..i] == p;
    } else {
      PrefixNames(g, Parent(p), i);
      assert Parent(p)[..i] == p[..i];
    }
  }

  lemma {:induction false} PrefixIsDir(g: Graph, p: Path, i: nat)
    requires i <= |p| && NamesDir(g, p)
    ensures NamesDir(g, p[..i])
    decreases |p|
  {
    if i == |p| {
      assert p[..i] == p;
    } else {
      PrefixIsDir(g, Parent(p), i);
      assert Parent(p)[..i] == p[..i];
    }
  }

  // ----- one call

  /** The type that goes with a path is that of the file, unless it is a link. */
  ghost predicate WellTyped(g: Graph, p: Path, typ: FileType) {
    typ != Symlink ==> Resolve(g, p).Some? && (NamesDir(g, p) <==> typ == Directory)
  }

  lemma CallMemory(t: Search, log: seq<Event>, c: Call)
    requires Wraps(t)
    ensures var reply := A.Answer(t.kind, t.cfg.fs, t.inner, Memory(t, log), c);
            Memory(t, log + [Called(c)]) == reply.memory && t.cfg.fn(log, c) == reply.err
  {
    var m := Memory(t, log);
    A.ReplayAppend(t.kind, t.cfg.fs, t.inner, A.NOTHING, log, [Called(c)]);
    assert A.Replay(t.kind, t.cfg.fs, t.inner, A.Remember(t.kind, t.cfg.fs, t.inner, m, Called(c)), [])
        == A.Answer(t.kind, t.cfg.fs, t.inner, m, c).memory;
  }

  /** Stat of a path finds the file that the path names. */
  lemma StatFinds(t: Search, c: Call)
    requires Wraps(t)
    ensures var k, info := Resolve(t.g, c.path), t.cfg.fs.stat(c.path);
            && (k.Some? <==> info.Some?)
            && (k.Some? ==> info.value.key == k.value)
    ensures WellTyped(t.g, c.path, c.typ) ==> (A.IsDirCall(t.cfg.fs, c) <==> NamesDir(t.g, c.path))
  {
    assert t.cfg.fs.stat(c.path) == Stat(t.g, c.path);
    if Resolve(t.g, c.path).Some? {
      ResolveNode(t.g, c.path);
    }
  }

  /** The inner callback's own answer to a call. */
  ghost function InnerAnswer(t: Search, log: seq<Event>, c: Call): Error {
    t.inner(Memory(t, log).inner, c)
  }

  /** The inner callback itself asks IgnoreDuplicateDirs for a link to `k` to be traversed; this is
      passed on whatever is in the filter. */
  ghost predicate Asks(t: Search, log: seq<Event>, c: Call, k: FileKey) {
    && t.kind.Dirs? && c.err == Nil && c.typ == Symlink && Names(t.g, c.path, k)
    && InnerAnswer(t, log, c) == TraverseLink
  }

  /** The first call for `k`, if the inner callback lets it pass. */
  ghost predicate Enters(t: Search, log: seq<Event>, c: Call, k: FileKey) {
    && c.err == Nil && Names(t.g, c.path, k) && k !in SeenKeys(t, log)
    && var r := InnerAnswer(t, log, c);
       r == Nil || (t.kind.Files? && c.typ == Symlink && r == TraverseLink)
  }

  /** The answer has a directory read, if neither Follow nor a depth limit prevents it. */
  ghost predicate HasRead(c: Call, r: Error) {
    c.err == Nil && r == if c.typ == Symlink then TraverseLink else Nil
  }

  /** What a call does, whatever the inner callback answers: it puts at most the file it is for in the
      filter. For a directory the answer has it read exactly if it is the first call for it and passes,
      or if the inner callback asks for it; a link to it is never answered with nil. */
  lemma CallClaims(t: Search, log: seq<Event>, c: Call)
    requires Wraps(t) && WellTyped(t.g, c.path, c.typ)
    ensures var k := Resolve(t.g, c.path);
            var seen, seen' := SeenKeys(t, log), SeenKeys(t, log + [Called(c)]);
            var r := t.cfg.fn(log, c);
            && (seen' == seen || (k.Some? && seen' == seen + {k.value}))
            && (NamesDir(t.g, c.path) ==>
                  && (HasRead(c, r) <==> Enters(t, log, c, k.value) || Asks(t, log, c, k.value))
                  && (Enters(t, log, c, k.value) ==> k.value in seen')
                  && (c.typ == Symlink && c.err == Nil ==> r != Nil))
  {
    CallMemory(t, log, c);
    StatFinds(t, c);
  }

  /** IgnoreDuplicateDirs passes every call on. What the wrapped callback answers is the answer, unless it is
      nil and the call is for a directory: then that is skipped if it has been seen, and entered or traversed
      if it is new. */
  lemma DirsAnswer(t: Search, log: seq<Event>, c: Call)
    requires Wraps(t) && t.kind.Dirs?
    ensures Memory(t, log + [Called(c)]).inner == Memory(t, log).inner + [c]
    ensures InnerAnswer(t, log, c) != Nil ==> t.cfg.fn(log, c) == InnerAnswer(t, log, c)
    ensures WellTyped(t.g, c.path, c.typ) && InnerAnswer(t, log, c) == Nil ==>
              t.cfg.fn(log, c)
              == if !NamesDir(t.g, c.path) then Nil
                 else if Resolve(t.g, c.path).value in SeenKeys(t, log) then SkipDir
                 else if c.typ == Symlink then TraverseLink
                 else Nil
  {
    CallMemory(t, log, c);
    StatFinds(t, c);
  }

  /** The file has not been seen; one that cannot be statted never counts as new. */
  ghost predicate NewFile(t: Search, log: seq<Event>, c: Call) {
    Resolve(t.g, c.path).Some? && Resolve(t.g, c.path).value !in SeenKeys(t, log)
  }

  /** IgnoreDuplicateFiles passes on exactly the calls for new files, and records these. What the wrapped
      callback answers is the answer, unless it is nil and the call is for a link to a directory, which is
      traversed then. Other directories are skipped, and other files passed over. */
  lemma FilesAnswer(t: Search, log: seq<Event>, c: Call)
    requires Wraps(t) && t.kind.Files? && WellTyped(t.g, c.path, c.typ)
    ensures var isNew, dir := NewFile(t, log, c), NamesDir(t.g, c.path);
            var m, m' := Memory(t, log), Memory(t, log + [Called(c)]);
            && m'.inner == (if isNew then m.inner + [c] else m.inner)
            && m'.seen == (if isNew then m.seen + {Resolve(t.g, c.path).value} else m.seen)
            && t.cfg.fn(log, c)
               == (if !isNew then if dir then SkipDir else Nil
                   else if InnerAnswer(t, log, c) == Nil && dir && c.typ == Symlink then TraverseLink
                   else InnerAnswer(t, log, c))
  {
    CallMemory(t, log, c);
    StatFinds(t, c);
  }

  /** IgnoreDuplicateDirs records a directory with every call for it, unless the wrapped callback skips
      it. */
  lemma SkippedIsNotRecorded(t: Search, log: seq<Event>, c: Call)
    requires Wraps(t) && t.kind.Dirs? && WellTyped(t.g, c.path, c.typ)
    ensures var seen, seen' := SeenKeys(t, log), SeenKeys(t, log + [Called(c)]);
            seen' == if NamesDir(t.g, c.path) && t.inner(Memory(t, log).inner, c) != SkipDir
                     then seen + {Resolve(t.g, c.path).value} else seen
  {
    CallMemory(t, log, c);
    StatFinds(t, c);
  }

  lemma OtherEventsClaimNothing(t: Search, log: seq<Event>, e: Event)
    requires !e.Called?
    ensures Memory(t, log + [e]) == Memory(t, log)
  {
    A.ReplayAppend(t.kind, t.cfg.fs, t.inner, A.NOTHING, log, [e]);
    var m := Memory(t, log);
    assert A.Replay(t.kind, t.cfg.fs, t.inner, A.Remember(t.kind, t.cfg.fs, t.inner, m, e), []) == m;
  }

  // ----- what items and workers look like

  ghost predicate GoodItem(g: Graph, it: Item) {
    && WellTyped(g, it.dir, it.typ)
    && (it.callbackDone <==> it.typ == Symlink)
  }

  /** `rest` is what is left of the entries of `dir`. */
  ghost predicate IsRest(g: Graph, dir: Path, rest: seq<DirEnt>) {
    var entries := List(g, dir).entries;
    |rest| <= |entries| && rest == entries[|entries| - |rest|..]
  }

  ghost predicate GoodWorker(g: Graph, w: Worker) {
    match w
    case Entering(it) => GoodItem(g, it)
    case Reading(it, rest, _) => GoodItem(g, it) && IsRest(g, it.dir, rest)
    case Enqueueing(it, rest, _, pending) => GoodItem(g, it) && IsRest(g, it.dir, rest) && GoodItem(g, pending)
    case Reporting(it, err) => GoodItem(g, it) && err != Nil
    case _ => true
  }

  ghost function GoodItems(g: Graph): Item -> bool {
    (it: Item) => GoodItem(g, it)
  }

  ghost function GoodWorkers(g: Graph): Worker -> bool {
    (w: Worker) => GoodWorker(g, w)
  }

  ghost predicate GoodState(g: Graph, s: State) {
    Everywhere(s, GoodItems(g), GoodWorkers(g))
  }

  lemma RestOfSuffix(entries: seq<DirEnt>, rest: seq<DirEnt>)
    requires 0 < |rest| <= |entries| && rest == entries[|entries| - |rest|..]
    ensures rest[0] == entries[|entries| - |rest|] && rest[1..] == entries[|entries| - |rest[1..]|..]
  {
  }

  /** A remaining entry shows that `dir` is a directory, and its type that of the file behind it. */
  lemma FirstEntry(g: Graph, dir: Path, rest: seq<DirEnt>)
    requires Valid(g) && IsRest(g, dir, rest) && rest != []
    ensures NamesDir(g, dir) && IsRest(g, dir, rest[1..])
    ensures WellTyped(g, dir + [rest[0].name], rest[0].typ)
  {
    RestOfSuffix(List(g, dir).entries, rest);
    EntryTarget(g, dir, |List(g, dir).entries| - |rest|);
  }

  /** The file behind an entry. */
  lemma EntryTarget(g: Graph, dir: Path, i: nat)
    requires Valid(g) && i < |List(g, dir).entries|
    ensures var e := List(g, dir).entries[i];
            NamesDir(g, dir) && WellTyped(g, dir + [e.name], e.typ)
  {
    ResolveEntry(g, dir, i);
    assert ValidLink(g, g.nodes[Resolve(g, dir).value].links[i]);
  }

  lemma EnterGood(t: Search, it: Item, log: seq<Event>)
    requires Wraps(t) && GoodItem(t.g, it)
    ensures GoodWorker(t.g, Advance(t.cfg, Entering(it), log).next)
  {
    assert t.cfg.fs.list(it.dir) == List(t.g, it.dir);
    assert List(t.g, it.dir).entries[0..] == List(t.g, it.dir).entries;
    assert GoodWorker(t.g, Open(t.cfg, it));
    EnterMoves(t.cfg, it, log);
  }

  lemma EntryGood(t: Search, w: Worker, log: seq<Event>)
    requires Wraps(t) && w.Reading? && w.rest != [] && GoodWorker(t.g, w)
    ensures GoodWorker(t.g, Advance(t.cfg, w, log).next)
  {
    EntryMoves(t.cfg, w, log);
    FirstEntry(t.g, w.it.dir, w.rest);
  }

  lemma EndGood(t: Search, w: Worker, m: Move)
    requires (w.Reading? || w.Reporting?) && GoodItem(t.g, w.it) && EndMove(t.cfg, w, m)
    ensures GoodWorker(t.g, m.next)
  {
  }

  lemma GoGood(t: Search, w: Worker, log: seq<Event>)
    requires Wraps(t) && Active(w) && GoodWorker(t.g, w)
    ensures GoodWorker(t.g, Advance(t.cfg, w, log).next)
  {
    if w.Entering? {
      EnterGood(t, w.it, log);
    } else if w.Reporting? || w.rest == [] {
      EndMoves(t.cfg, w, log);
      EndGood(t, w, Advance(t.cfg, w, log));
    } else {
      EntryGood(t, w, log);
    }
  }

  lemma GoodGoesAlong(g: Graph)
    ensures GoesAlong(GoodItems(g), GoodWorkers(g))
  {
  }

  lemma StepGood(t: Search, s: State, a: Action)
    requires Wraps(t) && GoodState(t.g, s) && Enabled(t.cfg, s, a)
    ensures GoodState(t.g, Apply(t.cfg, s, a))
  {
    if a.Go? {
      assert GoodWorkers(t.g)(s.workers[a.i]);
      GoGood(t, s.workers[a.i], s.log);
    } else {
      GoodGoesAlong(t.g);
      ChannelKeeps(t.cfg, s, a, GoodItems(t.g), GoodWorkers(t.g));
    }
  }

  lemma InitGood(t: Search)
    requires Wraps(t)
    ensures GoodState(t.g, Init(t.cfg))
  {
    if t.cfg.fs.stat(t.cfg.root).Some? {
      assert t.cfg.fs.stat(t.cfg.root) == Stat(t.g, t.cfg.root);
      ResolveNode(t.g, t.cfg.root);
    }
  }
}
