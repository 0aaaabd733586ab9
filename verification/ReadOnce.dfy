/** With either adapter around a callback that prunes nothing, every interleaving of the parallel walk is
    a search of the file graph: unless a directory cannot be read, it finds everything reachable, and
    handles it once. */
module ReadOnce {
  import opened Entries
  import opened Protocol
  import opened Ledger
  import opened Safety
  import opened Graph
  import opened GraphSearch
  import opened Traverse
  import opened AtMostOnce
  import A = Adapters
  import C = Consent
  import Paths

  /** With Follow, no directory above the root can be reached from it: the check against ancestors would
      keep the walk out. */
  ghost predicate RootApart(t: Search) {
    forall i, k :: 0 <= i < |t.cfg.root| && Names(t.g, t.cfg.root[..i], k) ==> !Reachable(t, k)
  }

  /** A walk from a directory, without a depth limit; the inner callback answers nil to every call without
      an error. */
  ghost predicate PassesAll(t: Search) {
    && Wraps(t)
    && t.cfg.maxDepth <= 0
    && t.cfg.numWorkers >= 1
    && NamesDir(t.g, t.cfg.root)
    && forall calls, c: Call :: c.err == Nil ==> t.inner(calls, c) == Nil
  }

  /** Such a walk is a search, with Follow off or if Follow prevents nothing. */
  ghost predicate Searches(t: Search) {
    PassesAll(t) && (t.cfg.follow ==> RootApart(t))
  }

  /** The wrapped callback lets errors pass; under IgnoreDuplicateFiles it never hears of one. */
  ghost predicate Tolerant(t: Search) {
    t.kind.Files? || forall calls, c :: t.inner(calls, c) == Nil
  }

  /** A result of walk: if the wrapped callback lets errors pass, it is nil or SkipDir. */
  ghost predicate SkipDirIfTolerant(t: Search, res: Error) {
    Tolerant(t) ==> res == Nil || res == SkipDir
  }

  // ----- calls

  /** The first call for a tracked file puts it in the filter, and only that; a directory is entered by
      the first call and skipped by later ones. */
  lemma SearchCall(t: Search, log: seq<Event>, c: Call)
    requires Searches(t) && WellTyped(t.g, c.path, c.typ) && c.err == Nil
    ensures var k := Resolve(t.g, c.path);
            var seen, seen' := SeenKeys(t, log), SeenKeys(t, log + [Called(c)]);
            && seen' == (if k.Some? && Tracked(t, k.value) then seen + {k.value} else seen)
            && t.cfg.fn(log, c)
               == (if NamesDir(t.g, c.path) then
                     if k.value in seen then SkipDir else if c.typ == Symlink then TraverseLink else Nil
                   else Nil)
  {
    CallMemory(t, log, c);
    StatFinds(t, c);
  }

  /** The report of an error of a directory in the filter is never answered with nil: the adapters
      take it for a second visit. */
  lemma ErrorCall(t: Search, log: seq<Event>, c: Call)
    requires Searches(t) && WellTyped(t.g, c.path, c.typ) && NamesDir(t.g, c.path)
    requires Resolve(t.g, c.path).value in SeenKeys(t, log)
    ensures SeenKeys(t, log + [Called(c)]) == SeenKeys(t, log)
    ensures t.cfg.fn(log, c) != Nil && SkipDirIfTolerant(t, t.cfg.fn(log, c))
  {
    CallMemory(t, log, c);
    StatFinds(t, c);
  }

  // ----- what items and workers look like

  ghost predicate SolidItem(g: Graph, it: Item) {
    GoodItem(g, it) && NamesDir(g, it.dir)
  }

  ghost predicate SolidWorker(t: Search, w: Worker) {
    match w
    case Entering(it) => SolidItem(t.g, it)
    case Reading(it, rest, skipFiles) => SolidItem(t.g, it) && IsRest(t.g, it.dir, rest) && !skipFiles
    case Enqueueing(it, rest, skipFiles, pending) =>
      SolidItem(t.g, it) && IsRest(t.g, it.dir, rest) && !skipFiles && SolidItem(t.g, pending)
    case Reporting(it, err) => SolidItem(t.g, it) && err == List(t.g, it.dir).err != Nil
    case Sending(res) => SkipDirIfTolerant(t, res)
    case _ => true
  }

  ghost function SolidItems(g: Graph): Item -> bool {
    (it: Item) => SolidItem(g, it)
  }

  ghost function SolidWorkers(t: Search): Worker -> bool {
    (w: Worker) => SolidWorker(t, w)
  }

  ghost predicate SolidState(t: Search, s: State) {
    && Everywhere(s, SolidItems(t.g), SolidWorkers(t))
    && (forall r :: r in s.resc ==> SkipDirIfTolerant(t, r))
    && (Closed(s) ==> SkipDirIfTolerant(t, s.coord.err))
  }

  /** The directories from the root to the end of `p` are in the filter. */
  ghost predicate PathInFilter(t: Search, log: seq<Event>, p: Path) {
    && IsPrefix(t.cfg.root, p)
    && forall i :: |t.cfg.root| <= i <= |p| ==> NamesDir(t.g, p[..i]) && Resolve(t.g, p[..i]).value in SeenKeys(t, log)
  }

  /** So they are for what a worker reads, or reports an error of. */
  ghost predicate InHand(t: Search, log: seq<Event>, w: Worker) {
    w.Reading? || w.Reporting? ==> PathInFilter(t, log, w.it.dir)
  }

  // ----- the steps of a worker

  /** An item claims its directory with the callback, or has done so; only then is it read. */
  lemma EnterEffect(t: Search, it: Item, log: seq<Event>)
    requires Searches(t) && SolidItem(t.g, it)
    ensures var m := Advance(t.cfg, Entering(it), log);
            var k := Resolve(t.g, it.dir).value;
            var seen, seen' := SeenKeys(t, log), SeenKeys(t, log + m.events);
            var c := Called(ItemCall(it, Nil));
            var reading := Reading(it, List(t.g, it.dir).entries, false);
            && SolidWorker(t, m.next)
            && (it.callbackDone ==> m == Move(reading, [Opened(it.dir)]) && seen' == seen)
            && (!it.callbackDone && k in seen ==> m == Move(Sending(Nil), [c]) && seen' == seen)
            && (!it.callbackDone && k !in seen ==>
                  m == Move(reading, [c, Opened(it.dir)]) && seen' == seen + {k})
  {
    var c := ItemCall(it, Nil);
    assert t.cfg.fs.list(it.dir) == List(t.g, it.dir);
    assert List(t.g, it.dir).entries[0..] == List(t.g, it.dir).entries;
    if it.callbackDone {
      OtherEventsClaimNothing(t, log, Opened(it.dir));
    } else {
      SearchCall(t, log, c);
      OtherEventsClaimNothing(t, log + [Called(c)], Opened(it.dir));
      assert log + [Called(c)] + [Opened(it.dir)] == log + [Called(c), Opened(it.dir)];
    }
  }

  /** A subdirectory is queued without a call. */
  lemma SubdirEffect(t: Search, w: Worker, log: seq<Event>)
    requires Searches(t) && w.Reading? && w.rest != [] && SolidWorker(t, w) && w.rest[0].typ == Directory
    ensures var m := Advance(t.cfg, w, log);
            && m == Move(Enqueueing(w.it, w.rest[1..], false, ChildItem(w.it, w.rest[0])), [])
            && SolidWorker(t, m.next)
  {
    FirstEntry(t.g, w.it.dir, w.rest);
  }

  /** A directory that is not in the filter is no ancestor: the check of Follow lets it pass. */
  lemma NewIsTraversed(t: Search, log: seq<Event>, p: Path, name: Name, k: FileKey)
    requires Searches(t) && t.cfg.follow && PathInFilter(t, log, p)
    requires Names(t.g, p + [name], k) && IsDir(t.g, k) && k !in SeenKeys(t, log)
    ensures ShouldTraverse(t.cfg, p + [name])
  {
    var q := p + [name];
    assert t.cfg.fs.stat(q) == Stat(t.g, q);
    assert t.cfg.fs.stat(t.cfg.root) == Stat(t.g, t.cfg.root);
    assert p[..|t.cfg.root|] == t.cfg.root && q[..|t.cfg.root|] == t.cfg.root;
    assert Reachable(t, k);
    forall i | 0 <= i < |q|
      ensures t.cfg.fs.stat(q[..i]).Some? && t.cfg.fs.stat(q[..i]).value.key != k
    {
      AncestorIsOther(t, log, p, name, k, i);
    }
    NoAncestorExactly(t.cfg.fs, k, q);
  }

  lemma AncestorIsOther(t: Search, log: seq<Event>, p: Path, name: Name, k: FileKey, i: nat)
    requires Searches(t) && t.cfg.follow && PathInFilter(t, log, p) && i <= |p|
    requires Names(t.g, p + [name], k) && IsDir(t.g, k) && k !in SeenKeys(t, log)
    ensures var info := t.cfg.fs.stat((p + [name])[..i]);
            info.Some? && info.value.key != k
  {
    var a := (p + [name])[..i];
    assert a == p[..i] && t.cfg.fs.stat(a) == Stat(t.g, a);
    if i < |t.cfg.root| {
      assert p[..|t.cfg.root|][..i] == a;
      assert (p + [name])[..|t.cfg.root|] == t.cfg.root;
      assert Reachable(t, k);
      PrefixNames(t.g, t.cfg.root, i);
    }
    ResolveNode(t.g, a);
  }

  /** A call that is answered with nil, or for a link with one of the sentinels for directories. */
  lemma AdvanceCall(cfg: Config, w: Worker, log: seq<Event>)
    requires w.Reading? && w.rest != [] && w.rest[0].typ != Directory && !w.skipFiles
    ensures var m := Advance(cfg, w, log);
            var c := EntryCall(w.it, w.rest[0]);
            var r := cfg.fn(log, c);
            var isLink := w.rest[0].typ == Symlink;
            && m.events == [Called(c)]
            && (isLink && r == TraverseLink && (cfg.follow ==> ShouldTraverse(cfg, c.path)) ==>
                  m.next == Enqueueing(w.it, w.rest[1..], false, ChildItem(w.it, w.rest[0])))
            && ((r == Nil && (isLink && cfg.follow ==> !ShouldTraverse(cfg, c.path))) || (isLink && r == SkipDir) ==>
                  m.next == Reading(w.it, w.rest[1..], false))
  {
  }

  /** Of the other entries, a link to a new directory is queued and the rest is passed over. */
  lemma CalledEffect(t: Search, w: Worker, log: seq<Event>)
    requires Searches(t) && InHand(t, log, w)
    requires w.Reading? && w.rest != [] && SolidWorker(t, w) && w.rest[0].typ != Directory
    ensures var m := Advance(t.cfg, w, log);
            var e, tail := w.rest[0], w.rest[1..];
            var k := Resolve(t.g, w.it.dir + [e.name]);
            var seen, seen' := SeenKeys(t, log), SeenKeys(t, log + m.events);
            && m.events == [Called(EntryCall(w.it, e))]
            && seen' == (if k.Some? && Tracked(t, k.value) then seen + {k.value} else seen)
            && m.next == (if k.Some? && IsDir(t.g, k.value) && k.value !in seen
                          then Enqueueing(w.it, tail, false, ChildItem(w.it, e))
                          else Reading(w.it, tail, false))
  {
    FirstEntry(t.g, w.it.dir, w.rest);
    var c := EntryCall(w.it, w.rest[0]);
    SearchCall(t, log, c);
    AdvanceCall(t.cfg, w, log);
    if NamesDir(t.g, c.path) && t.cfg.follow && Resolve(t.g, c.path).value !in SeenKeys(t, log) {
      NewIsTraversed(t, log, w.it.dir, w.rest[0].name, Resolve(t.g, c.path).value);
    } else if !NamesDir(t.g, c.path) {
      NoDirNotTraversed(t, c.path);
    }
  }

  lemma NoDirNotTraversed(t: Search, p: Path)
    requires Wraps(t) && !NamesDir(t.g, p)
    ensures !ShouldTraverse(t.cfg, p)
  {
    assert t.cfg.fs.stat(p) == Stat(t.g, p);
  }

  lemma CalledSolid(t: Search, w: Worker, log: seq<Event>)
    requires Searches(t) && InHand(t, log, w)
    requires w.Reading? && w.rest != [] && SolidWorker(t, w) && w.rest[0].typ != Directory
    ensures SolidWorker(t, Advance(t.cfg, w, log).next)
  {
    CalledEffect(t, w, log);
    FirstEntry(t.g, w.it.dir, w.rest);
  }

  /** At its end a directory is done with, or its error is reported. */
  lemma EndEffect(t: Search, w: Worker, log: seq<Event>)
    requires Searches(t) && w.Reading? && w.rest == [] && SolidWorker(t, w)
    ensures var err := List(t.g, w.it.dir).err;
            Advance(t.cfg, w, log) == Move(if err == Nil then Sending(Nil) else Reporting(w.it, err), [])
  {
    assert t.cfg.fs.list(w.it.dir) == List(t.g, w.it.dir);
  }

  /** The report fails the walk. */
  lemma ReportEffect(t: Search, w: Worker, log: seq<Event>)
    requires Searches(t) && w.Reporting? && SolidWorker(t, w) && InHand(t, log, w)
    ensures var m := Advance(t.cfg, w, log);
            && m.events == [Called(ItemCall(w.it, w.err))]
            && SeenKeys(t, log + m.events) == SeenKeys(t, log)
            && m.next.Sending? && m.next.res != Nil && SkipDirIfTolerant(t, m.next.res)
  {
    assert w.it.dir[..|w.it.dir|] == w.it.dir;
    ErrorCall(t, log, ItemCall(w.it, w.err));
  }

  lemma GoSolid(t: Search, w: Worker, log: seq<Event>)
    requires Searches(t) && Active(w) && SolidWorker(t, w) && InHand(t, log, w)
    ensures SolidWorker(t, Advance(t.cfg, w, log).next)
  {
    match w {
      case Entering(it) => EnterEffect(t, it, log);
      case Reading(_, rest, _) =>
        if rest == [] {
          EndEffect(t, w, log);
        } else if rest[0].typ == Directory {
          SubdirEffect(t, w, log);
        } else {
          CalledSolid(t, w, log);
        }
      case Reporting(_, _) => ReportEffect(t, w, log);
    }
  }

  lemma ResultsSolid(t: Search, s: State, a: Action)
    requires SolidState(t, s) && Enabled(t.cfg, s, a)
    ensures forall r :: r in Apply(t.cfg, s, a).resc ==> SkipDirIfTolerant(t, r)
    ensures Closed(Apply(t.cfg, s, a)) ==> SkipDirIfTolerant(t, Apply(t.cfg, s, a).coord.err)
  {
    if a.Receive? {
      assert s.resc[0] in s.resc && forall r :: r in s.resc[1..] ==> r in s.resc;
    } else if a.Deliver? {
      assert SolidWorkers(t)(s.workers[a.i]);
    }
  }

  lemma SolidGoesAlong(t: Search)
    ensures GoesAlong(SolidItems(t.g), SolidWorkers(t))
  {
  }

  lemma StepSolid(t: Search, s: State, a: Action)
    requires Searches(t) && SolidState(t, s) && Enabled(t.cfg, s, a)
    requires a.Go? ==> InHand(t, s.log, s.workers[a.i])
    ensures SolidState(t, Apply(t.cfg, s, a))
  {
    ResultsSolid(t, s, a);
    if a.Go? {
      assert SolidWorkers(t)(s.workers[a.i]);
      GoSolid(t, s.workers[a.i], s.log);
    } else {
      SolidGoesAlong(t);
      ChannelKeeps(t.cfg, s, a, SolidItems(t.g), SolidWorkers(t));
    }
  }

  // ----- what will be found

  ghost function Finds(g: Graph, k: FileKey): Item -> nat {
    (it: Item) => if Names(g, it.dir, k) then 1 else 0
  }

  ghost function FindsEntry(g: Graph, dir: Path, k: FileKey): DirEnt -> nat {
    (e: DirEnt) => if Names(g, dir + [e.name], k) then 1 else 0
  }

  ghost function FoundBy(g: Graph, k: FileKey, w: Worker): nat {
    match w
    case Entering(it) => Finds(g, k)(it)
    case Reading(it, rest, _) => Sum(rest, FindsEntry(g, it.dir, k))
    case Enqueueing(it, rest, _, pending) => Sum(rest, FindsEntry(g, it.dir, k)) + Finds(g, k)(pending)
    case _ => 0
  }

  ghost function WorkerFinds(g: Graph, k: FileKey): Worker -> nat {
    (w: Worker) => FoundBy(g, k, w)
  }

  /** In the filter, or sure to be come across. */
  ghost function Coverage(t: Search, s: State, k: FileKey): nat {
    InFilter(t, s.log, k) + Total(s, Finds(t.g, k), WorkerFinds(t.g, k))
  }

  /** A directory is in the filter exactly if it has been read, or one claim on it is pending. */
  ghost predicate ClaimsExact(t: Search, s: State, k: FileKey) {
    Sum(s.log, OpensKey(t.g, k)) + Total(s, Claims(t.g, k), WorkerClaims(t.g, k)) == InFilter(t, s.log, k)
  }

  // ----- the accounts of one worker

  /** What the move `m` of worker `w` does to the accounts of `k`. */
  ghost predicate Accounted(t: Search, w: Worker, m: Move, log: seq<Event>, k: FileKey) {
    var before, after := InFilter(t, log, k), InFilter(t, log + m.events, k);
    && (IsDir(t.g, k) ==>
          Sum(m.events, OpensKey(t.g, k)) + ClaimedBy(t.g, k, m.next) - ClaimedBy(t.g, k, w) == after - before)
    && before <= after
    && (Tracked(t, k) && FoundBy(t.g, k, m.next) < FoundBy(t.g, k, w) ==> after == 1 || ClaimedBy(t.g, k, w) == 1)
  }

  /** A directory whose callback has been called is claimed by the item. */
  lemma EnterClaimed(t: Search, it: Item, log: seq<Event>, k: FileKey)
    requires Searches(t) && SolidItem(t.g, it) && it.callbackDone
    ensures Accounted(t, Entering(it), Advance(t.cfg, Entering(it), log), log, k)
  {
    EnterEffect(t, it, log);
    SumOfTwo(Opened(it.dir), Opened(it.dir), OpensKey(t.g, k));
  }

  lemma EnterUnclaimed(t: Search, it: Item, log: seq<Event>, k: FileKey)
    requires Searches(t) && SolidItem(t.g, it) && !it.callbackDone
    ensures Accounted(t, Entering(it), Advance(t.cfg, Entering(it), log), log, k)
  {
    EnterEffect(t, it, log);
    SumOfTwo(Called(ItemCall(it, Nil)), Opened(it.dir), OpensKey(t.g, k));
  }

  lemma EnterAccounts(t: Search, it: Item, log: seq<Event>, k: FileKey)
    requires Searches(t) && SolidItem(t.g, it)
    ensures Accounted(t, Entering(it), Advance(t.cfg, Entering(it), log), log, k)
  {
    if it.callbackDone {
      EnterClaimed(t, it, log, k);
    } else {
      EnterUnclaimed(t, it, log, k);
    }
  }

  lemma QuietAccounts(t: Search, w: Worker, m: Move, log: seq<Event>, k: FileKey)
    requires Sum(m.events, OpensKey(t.g, k)) == 0 && SeenKeys(t, log + m.events) == SeenKeys(t, log)
    requires ClaimedBy(t.g, k, m.next) == ClaimedBy(t.g, k, w) && FoundBy(t.g, k, m.next) == FoundBy(t.g, k, w)
    ensures Accounted(t, w, m, log, k)
  {
  }

  /** A call that queues a newly claimed directory. */
  lemma PushedAccounts(t: Search, w: Worker, log: seq<Event>, k: FileKey, c: Call)
    requires w.Reading? && w.rest != [] && w.rest[0].typ == Symlink
    requires c == EntryCall(w.it, w.rest[0]) && Resolve(t.g, c.path).Some?
    requires Resolve(t.g, c.path).value !in SeenKeys(t, log)
    requires SeenKeys(t, log + [Called(c)]) == SeenKeys(t, log) + {Resolve(t.g, c.path).value}
    ensures Accounted(t, w, Move(Enqueueing(w.it, w.rest[1..], false, ChildItem(w.it, w.rest[0])), [Called(c)]), log, k)
  {
    SumOfTwo(Called(c), Called(c), OpensKey(t.g, k));
    PushedFinds(t.g, w, k);
  }

  lemma PushedFinds(g: Graph, w: Worker, k: FileKey)
    requires w.Reading? && w.rest != [] && w.rest[0].typ == Symlink
    ensures var next := Enqueueing(w.it, w.rest[1..], false, ChildItem(w.it, w.rest[0]));
            && FoundBy(g, k, next) == FoundBy(g, k, w)
            && ClaimedBy(g, k, next) == if Names(g, w.it.dir + [w.rest[0].name], k) then 1 else 0
  {
  }

  /** What a call that passes over its entry does to the filter. */
  ghost predicate Passes(t: Search, w: Worker, log: seq<Event>, c: Call) {
    && w.Reading? && w.rest != [] && c == EntryCall(w.it, w.rest[0])
    && var found, seen := Resolve(t.g, c.path), SeenKeys(t, log);
       && (found.Some? && IsDir(t.g, found.value) ==> found.value in seen)
       && SeenKeys(t, log + [Called(c)])
          == if found.Some? && Tracked(t, found.value) then seen + {found.value} else seen
  }

  lemma PassedAccounts(t: Search, w: Worker, log: seq<Event>, k: FileKey, c: Call)
    requires Passes(t, w, log, c)
    ensures Accounted(t, w, Move(Reading(w.it, w.rest[1..], false), [Called(c)]), log, k)
  {
    SumOfTwo(Called(c), Called(c), OpensKey(t.g, k));
    var next := Reading(w.it, w.rest[1..], false);
    assert FoundBy(t.g, k, w) == FoundBy(t.g, k, next) + if Names(t.g, c.path, k) then 1 else 0;
  }

  lemma CalledAccounts(t: Search, w: Worker, log: seq<Event>, k: FileKey)
    requires Searches(t) && InHand(t, log, w)
    requires w.Reading? && w.rest != [] && SolidWorker(t, w) && w.rest[0].typ != Directory
    ensures Accounted(t, w, Advance(t.cfg, w, log), log, k)
  {
    CalledEffect(t, w, log);
    FirstEntry(t.g, w.it.dir, w.rest);
    var c := EntryCall(w.it, w.rest[0]);
    var found := Resolve(t.g, c.path);
    if found.Some? && IsDir(t.g, found.value) && found.value !in SeenKeys(t, log) {
      PushedAccounts(t, w, log, k, c);
    } else {
      PassedAccounts(t, w, log, k, c);
    }
  }

  lemma ReadAccounts(t: Search, w: Worker, log: seq<Event>, k: FileKey)
    requires Searches(t) && w.Reading? && SolidWorker(t, w) && InHand(t, log, w)
    ensures Accounted(t, w, Advance(t.cfg, w, log), log, k)
  {
    if w.rest != [] && w.rest[0].typ != Directory {
      CalledAccounts(t, w, log, k);
    } else {
      assert log + [] == log;
      if w.rest == [] {
        EndEffect(t, w, log);
      } else {
        SubdirEffect(t, w, log);
      }
      QuietAccounts(t, w, Advance(t.cfg, w, log), log, k);
    }
  }

  lemma GoAccounts(t: Search, w: Worker, log: seq<Event>, k: FileKey)
    requires Searches(t) && Active(w) && SolidWorker(t, w) && InHand(t, log, w)
    ensures Accounted(t, w, Advance(t.cfg, w, log), log, k)
  {
    match w {
      case Entering(it) => EnterAccounts(t, it, log, k);
      case Reading(_, _, _) => ReadAccounts(t, w, log, k);
      case Reporting(_, _) => ReportAccounts(t, w, log, k);
    }
  }

  lemma ReportAccounts(t: Search, w: Worker, log: seq<Event>, k: FileKey)
    requires Searches(t) && w.Reporting? && SolidWorker(t, w) && InHand(t, log, w)
    ensures Accounted(t, w, Advance(t.cfg, w, log), log, k)
  {
    var c := ItemCall(w.it, w.err);
    ReportEffect(t, w, log);
    SumOfTwo(Called(c), Called(c), OpensKey(t.g, k));
    QuietAccounts(t, w, Advance(t.cfg, w, log), log, k);
  }

  // ----- read errors

  ghost predicate BrokenAt(g: Graph, p: Path) {
    NamesDir(g, p) && List(g, p).err != Nil
  }

  ghost function OpensBroken(g: Graph): Event -> nat {
    (e: Event) => if e.Opened? && BrokenAt(g, e.dir) then 1 else 0
  }

  /** The worker has a result that is an error, or will have one. */
  ghost function WillFail(g: Graph): Worker -> nat {
    (w: Worker) =>
      match w
      case Reading(it, _, _) => if BrokenAt(g, it.dir) then 1 else 0
      case Enqueueing(it, _, _, _) => if BrokenAt(g, it.dir) then 1 else 0
      case Reporting(_, _) => 1
      case Sending(res) => if res != Nil then 1 else 0
      case _ => 0
  }

  ghost function IsFailure(): Error -> nat {
    (e: Error) => if e != Nil then 1 else 0
  }

  /** Each directory with a read error that was opened is accounted for by a failure to come; once one
      has been received, the walk fails. */
  ghost predicate FailuresCounted(t: Search, s: State) {
    var broken := Sum(s.log, OpensBroken(t.g));
    && (!Closed(s) ==> broken == Sum(s.workers, WillFail(t.g)) + Sum(s.resc, IsFailure()))
    && (Closed(s) ==> (s.coord.err == Nil <==> broken == 0))
  }

  lemma GoFails(t: Search, w: Worker, log: seq<Event>)
    requires Searches(t) && Active(w) && SolidWorker(t, w) && InHand(t, log, w)
    ensures var m := Advance(t.cfg, w, log);
            WillFail(t.g)(m.next) == WillFail(t.g)(w) + Sum(m.events, OpensBroken(t.g))
  {
    match w {
      case Entering(it) =>
        EnterEffect(t, it, log);
        SumOfTwo(Called(ItemCall(it, Nil)), Opened(it.dir), OpensBroken(t.g));
        SumOfTwo(Opened(it.dir), Opened(it.dir), OpensBroken(t.g));
      case Reading(_, rest, _) => ReadFails(t, w, log);
      case Reporting(it, err) =>
        ReportEffect(t, w, log);
        SumOfTwo(Called(ItemCall(it, err)), Called(ItemCall(it, err)), OpensBroken(t.g));
    }
  }

  lemma ReadFails(t: Search, w: Worker, log: seq<Event>)
    requires Searches(t) && w.Reading? && SolidWorker(t, w) && InHand(t, log, w)
    ensures var m := Advance(t.cfg, w, log);
            WillFail(t.g)(m.next) == WillFail(t.g)(w) && Sum(m.events, OpensBroken(t.g)) == 0
  {
    if w.rest == [] {
      EndEffect(t, w, log);
    } else if w.rest[0].typ == Directory {
      SubdirEffect(t, w, log);
    } else {
      var c := EntryCall(w.it, w.rest[0]);
      CalledEffect(t, w, log);
      SumOfTwo(Called(c), Called(c), OpensBroken(t.g));
    }
  }

  lemma GoStepFails(t: Search, s: State, i: nat)
    requires Searches(t) && Inv(t.cfg, s) && SolidState(t, s) && Enabled(t.cfg, s, Go(i))
    requires InHand(t, s.log, s.workers[i]) && FailuresCounted(t, s)
    ensures FailuresCounted(t, Apply(t.cfg, s, Go(i)))
  {
    var s' := Apply(t.cfg, s, Go(i));
    SumAppend(s.log, NewEvents(t.cfg, s, Go(i)), OpensBroken(t.g));
    assert SolidWorkers(t)(s.workers[i]);
    GoFails(t, s.workers[i], s.log);
    SumUpdate(s.workers, i, s'.workers[i], WillFail(t.g));
  }

  lemma StepFails(t: Search, s: State, a: Action)
    requires Searches(t) && Inv(t.cfg, s) && SolidState(t, s) && Enabled(t.cfg, s, a)
    requires a.Go? ==> InHand(t, s.log, s.workers[a.i])
    requires FailuresCounted(t, s)
    ensures FailuresCounted(t, Apply(t.cfg, s, a))
  {
    if a.Go? {
      GoStepFails(t, s, a.i);
    } else {
      LogGrows(t.cfg, s, a);
      SumAppend(s.log, NewEvents(t.cfg, s, a), OpensBroken(t.g));
      SumZero(NewEvents(t.cfg, s, a), OpensBroken(t.g));
      if !Closed(s) {
        ChannelFails(t, s, a);
      }
    }
  }

  /** Results pass through resc to the coordinator. */
  lemma ChannelFails(t: Search, s: State, a: Action)
    requires Inv(t.cfg, s) && FailuresCounted(t, s) && Enabled(t.cfg, s, a) && !Closed(s) && !a.Go?
    ensures var s' := Apply(t.cfg, s, a);
            var broken := Sum(s.log, OpensBroken(t.g));
            && (!Closed(s') ==> broken == Sum(s'.workers, WillFail(t.g)) + Sum(s'.resc, IsFailure()))
            && (Closed(s') ==> (s'.coord.err == Nil <==> broken == 0))
  {
    if IsWorkerAction(a) {
      WorkerFails(t, s, a);
    } else if a.Recheck? {
      NoneBusy(s);
      SumZero(s.workers, WillFail(t.g));
    }
  }

  lemma WorkerFails(t: Search, s: State, a: Action)
    requires Enabled(t.cfg, s, a) && !Closed(s) && IsWorkerAction(a) && !a.Go?
    ensures var s' := Apply(t.cfg, s, a);
            Sum(s'.workers, WillFail(t.g)) + Sum(s'.resc, IsFailure())
            == Sum(s.workers, WillFail(t.g)) + Sum(s.resc, IsFailure())
  {
    SumUpdate(s.workers, a.i, Apply(t.cfg, s, a).workers[a.i], WillFail(t.g));
    if a.Deliver? {
      SumLast(s.resc, s.workers[a.i].res, IsFailure());
    }
  }

  // ----- the steps of the system

  /** What holds in every run. */
  ghost predicate Sound(t: Search, s: State) {
    && Inv(t.cfg, s)
    && GoodState(t.g, s)
    && C.GoodState(t.cfg, s)
    && SolidState(t, s)
    && FailuresCounted(t, s)
    && forall k :: IsDir(t.g, k) ==> ClaimsCovered(t, s, k)
  }

  /** Such an inner callback asks for nothing. */
  lemma {:induction false} NothingAsked(t: Search, log: seq<Event>, k: FileKey)
    requires Searches(t)
    ensures Asked(t, log, k) == 0
    decreases |log|
  {
    if log == [] {
    } else {
      NothingAsked(t, log[..|log| - 1], k);
    }
  }

  /** What has been opened is in the filter. */
  lemma OpenedInFilter(t: Search, s: State, p: Path)
    requires Searches(t) && NamesDir(t.g, p) && Opened(p) in s.log
    requires ClaimsCovered(t, s, Resolve(t.g, p).value)
    ensures Resolve(t.g, p).value in SeenKeys(t, s.log)
  {
    var k := Resolve(t.g, p).value;
    var j :| 0 <= j < |s.log| && s.log[j] == Opened(p);
    SumAtLeast(s.log, j, OpensKey(t.g, k));
    NothingAsked(t, s.log, k);
  }

  /** What a worker reads has been opened, and so have the directories above it. */
  lemma SoundPath(t: Search, s: State, p: Path)
    requires Searches(t) && Sound(t, s) && Opened(p) in s.log && NamesDir(t.g, p) && IsPrefix(t.cfg.root, p)
    ensures PathInFilter(t, s.log, p)
  {
    forall i | |t.cfg.root| <= i <= |p|
      ensures NamesDir(t.g, p[..i]) && Resolve(t.g, p[..i]).value in SeenKeys(t, s.log)
    {
      C.OpenedAbove(t.cfg, s.log, p[..i], p);
      PrefixIsDir(t.g, p, i);
      assert ClaimsCovered(t, s, Resolve(t.g, p[..i]).value);
      OpenedInFilter(t, s, p[..i]);
    }
  }

  lemma SoundInHand(t: Search, s: State, i: nat)
    requires Searches(t) && Sound(t, s) && i < |s.workers|
    ensures InHand(t, s.log, s.workers[i])
  {
    var w := s.workers[i];
    assert SolidWorkers(t)(w) && C.GoodWorkers(t.cfg, s.log)(w);
    if w.Reading? || w.Reporting? {
      SoundPath(t, s, w.it.dir);
    }
  }

  lemma StepSound(t: Search, s: State, a: Action)
    requires Searches(t) && Sound(t, s) && Ready(t, s) && Enabled(t.cfg, s, a)
    ensures Sound(t, Apply(t.cfg, s, a))
  {
    StepInv(t.cfg, s, a);
    StepGood(t, s, a);
    C.StepGood(t.cfg, s, a);
    StepSolid(t, s, a);
    StepFails(t, s, a);
    forall k | IsDir(t.g, k)
      ensures ClaimsCovered(t, Apply(t.cfg, s, a), k)
    {
      AtMostOnce.StepClaims(t, s, a, k);
    }
  }

  /** What the accounts need of it. */
  ghost predicate Ready(t: Search, s: State) {
    && Inv(t.cfg, s)
    && SolidState(t, s)
    && forall i :: 0 <= i < |s.workers| ==> InHand(t, s.log, s.workers[i])
  }

  lemma SoundIsReady(t: Search, s: State)
    requires Searches(t) && Sound(t, s)
    ensures Ready(t, s)
  {
    forall i | 0 <= i < |s.workers|
      ensures InHand(t, s.log, s.workers[i])
    {
      SoundInHand(t, s, i);
    }
  }

  /** Passing an item through a channel changes neither its claim nor what it will find; and while the
      walk has not failed, no item is dropped. */
  lemma NothingSpent(t: Search, s: State, a: Action, k: FileKey)
    requires Inv(t.cfg, s) && !Failed(s) && Enabled(t.cfg, s, a) && !a.Go?
    ensures Sum(NewEvents(t.cfg, s, a), OpensKey(t.g, k)) == 0
    ensures InFilter(t, s.log + NewEvents(t.cfg, s, a), k) == InFilter(t, s.log, k)
    ensures Spent(t.cfg, s, a, Claims(t.g, k), WorkerClaims(t.g, k)) == 0
    ensures Spent(t.cfg, s, a, Finds(t.g, k), WorkerFinds(t.g, k)) == 0
  {
    NoOpening(t, s, a, k);
    NoDropWhileIdle(t.cfg, s, a);
    ClaimsPassedOn(t.g, k);
    FindsPassedOn(t.g, k);
    Ledger.ChannelSpends(t.cfg, s, a, Claims(t.g, k), WorkerClaims(t.g, k));
    Ledger.ChannelSpends(t.cfg, s, a, Finds(t.g, k), WorkerFinds(t.g, k));
  }

  lemma FindsPassedOn(g: Graph, k: FileKey)
    ensures PassedOn(Finds(g, k), WorkerFinds(g, k))
  {
  }

  lemma SpendsExactly(t: Search, s: State, a: Action, k: FileKey)
    requires Searches(t) && Ready(t, s) && !Failed(s) && Enabled(t.cfg, s, a) && IsDir(t.g, k)
    ensures Spent(t.cfg, s, a, Claims(t.g, k), WorkerClaims(t.g, k))
         == Sum(NewEvents(t.cfg, s, a), OpensKey(t.g, k))
            + InFilter(t, s.log, k) - InFilter(t, s.log + NewEvents(t.cfg, s, a), k)
  {
    if a.Go? {
      assert SolidWorkers(t)(s.workers[a.i]);
      assert InHand(t, s.log, s.workers[a.i]);
      GoAccounts(t, s.workers[a.i], s.log, k);
    } else {
      NothingSpent(t, s, a, k);
    }
  }

  lemma StepClaimsExactly(t: Search, s: State, a: Action, k: FileKey)
    requires Searches(t) && Ready(t, s) && !Failed(s) && Enabled(t.cfg, s, a)
    requires IsDir(t.g, k) && ClaimsExact(t, s, k)
    ensures ClaimsExact(t, Apply(t.cfg, s, a), k)
  {
    TotalStep(t.cfg, s, a, Claims(t.g, k), WorkerClaims(t.g, k));
    SpendsExactly(t, s, a, k);
    LogGrows(t.cfg, s, a);
    SumAppend(s.log, NewEvents(t.cfg, s, a), OpensKey(t.g, k));
  }

  /** What will be found is not forgotten. */
  lemma StepCoverage(t: Search, s: State, a: Action, k: FileKey)
    requires Searches(t) && Ready(t, s) && !Failed(s) && Enabled(t.cfg, s, a)
    requires Tracked(t, k) && (IsDir(t.g, k) ==> ClaimsExact(t, s, k)) && Coverage(t, s, k) > 0
    ensures Coverage(t, Apply(t.cfg, s, a), k) > 0
  {
    TotalStep(t.cfg, s, a, Finds(t.g, k), WorkerFinds(t.g, k));
    LogGrows(t.cfg, s, a);
    SpendsFinds(t, s, a, k);
  }

  /** What is no longer ahead is in the filter. */
  lemma SpendsFinds(t: Search, s: State, a: Action, k: FileKey)
    requires Searches(t) && Ready(t, s) && !Failed(s) && Enabled(t.cfg, s, a)
    requires Tracked(t, k) && (IsDir(t.g, k) ==> ClaimsExact(t, s, k))
    ensures Spent(t.cfg, s, a, Finds(t.g, k), WorkerFinds(t.g, k)) > 0 ==>
              InFilter(t, s.log + NewEvents(t.cfg, s, a), k) == 1
    ensures InFilter(t, s.log, k) <= InFilter(t, s.log + NewEvents(t.cfg, s, a), k)
  {
    if a.Go? {
      assert SolidWorkers(t)(s.workers[a.i]);
      assert InHand(t, s.log, s.workers[a.i]);
      GoAccounts(t, s.workers[a.i], s.log, k);
      if ClaimedBy(t.g, k, s.workers[a.i]) == 1 {
        ClaimedIsInFilter(t, s, a.i, k);
      }
    } else {
      NothingSpent(t, s, a, k);
    }
  }

  lemma ClaimedIsInFilter(t: Search, s: State, i: nat, k: FileKey)
    requires SolidState(t, s) && (IsDir(t.g, k) ==> ClaimsExact(t, s, k))
    requires i < |s.workers| && ClaimedBy(t.g, k, s.workers[i]) == 1
    ensures InFilter(t, s.log, k) == 1
  {
    assert SolidWorkers(t)(s.workers[i]);
    SumAtLeast(s.workers, i, WorkerClaims(t.g, k));
  }

  // ----- closure

  ghost predicate LinksTo(g: Graph, d: FileKey, k: FileKey) {
    IsDir(g, d) && exists i :: 0 <= i < |g.nodes[d].links| && g.nodes[d].links[i].target == Some(k)
  }

  /** `k` is the root, or is linked to from a directory that has been opened. */
  ghost predicate Known(t: Search, log: seq<Event>, k: FileKey) {
    || Names(t.g, t.cfg.root, k)
    || exists p :: Opened(p) in log && NamesDir(t.g, p) && LinksTo(t.g, Resolve(t.g, p).value, k)
  }

  /** While the walk has not failed, `k` is accounted for. */
  ghost predicate OnTrack(t: Search, s: State, k: FileKey) {
    && Sound(t, s)
    && (!Failed(s) && IsDir(t.g, k) ==> ClaimsExact(t, s, k))
    && (!Failed(s) && Tracked(t, k) && Known(t, s.log, k) ==> Coverage(t, s, k) > 0)
  }

  /** A directory that is opened has all its links ahead. */
  lemma OpenedFinds(g: Graph, it: Item, k: FileKey)
    requires Valid(g) && NamesDir(g, it.dir) && LinksTo(g, Resolve(g, it.dir).value, k)
    ensures FoundBy(g, k, Reading(it, List(g, it.dir).entries, false)) > 0
  {
    var links := g.nodes[Resolve(g, it.dir).value].links;
    var i :| 0 <= i < |links| && links[i].target == Some(k);
    LinkFound(g, it.dir, i, k);
    SumAtLeast(List(g, it.dir).entries, i, FindsEntry(g, it.dir, k));
  }

  lemma LinkFound(g: Graph, dir: Path, i: nat, k: FileKey)
    requires Valid(g) && NamesDir(g, dir) && i < |g.nodes[Resolve(g, dir).value].links|
    requires g.nodes[Resolve(g, dir).value].links[i].target == Some(k)
    ensures i < |List(g, dir).entries| && FindsEntry(g, dir, k)(List(g, dir).entries[i]) == 1
  {
    ResolveEntry(g, dir, i);
  }

  lemma OnlyEnteringOpens(cfg: Config, w: Worker, log: seq<Event>, p: Path)
    requires Active(w) && Opened(p) in Advance(cfg, w, log).events
    ensures w.Entering? && w.it.dir == p
  {
  }

  /** Opening a directory is the step of a worker that starts to read it. */
  lemma OpeningStep(t: Search, s: State, a: Action, p: Path)
    requires Searches(t) && SolidState(t, s) && Enabled(t.cfg, s, a)
    requires Opened(p) in NewEvents(t.cfg, s, a)
    ensures a.Go? && s.workers[a.i].Entering? && s.workers[a.i].it.dir == p
    ensures Apply(t.cfg, s, a).workers[a.i] == Reading(s.workers[a.i].it, List(t.g, p).entries, false)
  {
    assert a.Go?;
    var w := s.workers[a.i];
    assert SolidWorkers(t)(w);
    OnlyEnteringOpens(t.cfg, w, s.log, p);
    EnterEffect(t, w.it, s.log);
  }

  lemma StepOpens(t: Search, s: State, a: Action, k: FileKey)
    requires Searches(t) && SolidState(t, s) && Enabled(t.cfg, s, a)
    requires !Known(t, s.log, k) && Known(t, s.log + NewEvents(t.cfg, s, a), k)
    ensures Coverage(t, Apply(t.cfg, s, a), k) > 0
  {
    var evs, s' := NewEvents(t.cfg, s, a), Apply(t.cfg, s, a);
    var p :| Opened(p) in s.log + evs && NamesDir(t.g, p) && LinksTo(t.g, Resolve(t.g, p).value, k);
    OpeningStep(t, s, a, p);
    OpenedFinds(t.g, s.workers[a.i].it, k);
    SumAtLeast(s'.workers, a.i, WorkerFinds(t.g, k));
  }

  lemma StepKnown(t: Search, s: State, a: Action, k: FileKey)
    requires Searches(t) && Ready(t, s) && !Failed(s) && Enabled(t.cfg, s, a)
    requires Tracked(t, k) && (IsDir(t.g, k) ==> ClaimsExact(t, s, k))
    requires Known(t, s.log, k) ==> Coverage(t, s, k) > 0
    ensures Known(t, s.log + NewEvents(t.cfg, s, a), k) ==> Coverage(t, Apply(t.cfg, s, a), k) > 0
  {
    if Known(t, s.log, k) {
      StepCoverage(t, s, a, k);
    } else if Known(t, s.log + NewEvents(t.cfg, s, a), k) {
      StepOpens(t, s, a, k);
    }
  }

  lemma StepOnTrack(t: Search, s: State, a: Action, k: FileKey)
    requires Searches(t) && OnTrack(t, s, k) && Enabled(t.cfg, s, a)
    ensures OnTrack(t, Apply(t.cfg, s, a), k)
  {
    SoundIsReady(t, s);
    StepSound(t, s, a);
    if Failed(s) {
      FailedStays(t.cfg, s, a);
    } else {
      LogGrows(t.cfg, s, a);
      if IsDir(t.g, k) {
        StepClaimsExactly(t, s, a, k);
      }
      if Tracked(t, k) {
        StepKnown(t, s, a, k);
      }
    }
  }

  lemma {:induction false} RunOnTrack(t: Search, s: State, acts: seq<Action>, s': State, k: FileKey)
    requires Searches(t) && OnTrack(t, s, k) && Run(t.cfg, s, acts, s')
    ensures OnTrack(t, s', k)
    decreases |acts|
  {
    if acts == [] {
    } else {
      StepOnTrack(t, s, acts[0], k);
      RunOnTrack(t, Apply(t.cfg, s, acts[0]), acts[1..], s', k);
    }
  }

  lemma InitSound(t: Search)
    requires Searches(t)
    ensures Sound(t, Init(t.cfg))
  {
    var s := Init(t.cfg);
    InitInv(t.cfg);
    InitGood(t);
    C.InitGood(t.cfg);
    InitSolid(t);
    forall k | IsDir(t.g, k)
      ensures ClaimsCovered(t, s, k)
    {
      InitClaims(t, k);
    }
  }

  lemma InitOnTrack(t: Search, k: FileKey)
    requires Searches(t)
    ensures OnTrack(t, Init(t.cfg), k)
  {
    InitSound(t);
    InitSums(t, k);
  }

  lemma InitRoot(t: Search)
    requires Searches(t)
    ensures var s := Init(t.cfg);
            && !Closed(s) && |s.todo| == 1 && s.todo[0].dir == t.cfg.root && !s.todo[0].callbackDone
            && SolidItem(t.g, s.todo[0])
  {
    assert t.cfg.fs.stat(t.cfg.root) == Stat(t.g, t.cfg.root);
  }

  lemma InitSolid(t: Search)
    requires Searches(t)
    ensures SolidState(t, Init(t.cfg)) && FailuresCounted(t, Init(t.cfg))
  {
    InitRoot(t);
    SumZero(Init(t.cfg).workers, WillFail(t.g));
  }

  lemma InitSums(t: Search, k: FileKey)
    requires Searches(t)
    ensures ClaimsExact(t, Init(t.cfg), k)
    ensures Known(t, [], k) ==> Coverage(t, Init(t.cfg), k) > 0
  {
    var s := Init(t.cfg);
    InitRoot(t);
    SumAtLeast(s.todo, 0, Finds(t.g, k));
    SumZero(s.todo, Claims(t.g, k));
    SumZero(s.workers, WorkerClaims(t.g, k));
  }

  /** Nothing is pending when all is quiet. */
  lemma QuietPendsNothing(t: Search, s: State, k: FileKey)
    requires Quiet(s)
    ensures Total(s, Claims(t.g, k), WorkerClaims(t.g, k)) == 0
    ensures Total(s, Finds(t.g, k), WorkerFinds(t.g, k)) == 0
  {
    SumZero(s.workers, WorkerClaims(t.g, k));
    SumZero(s.workers, WorkerFinds(t.g, k));
  }

  /** At the end what is known has been found, and what has been found read. */
  lemma EndOfSearch(t: Search, acts: seq<Action>, s: State, k: FileKey)
    requires Searches(t) && Run(t.cfg, Init(t.cfg), acts, s) && s.coord.Returned?
    ensures SkipDirIfTolerant(t, s.coord.err)
    ensures s.coord.err == Nil <==> Sum(s.log, OpensBroken(t.g)) == 0
    ensures s.coord.err == Nil && Tracked(t, k) && Known(t, s.log, k) ==> k in SeenKeys(t, s.log)
    ensures s.coord.err == Nil && IsDir(t.g, k) ==>
              Sum(s.log, OpensKey(t.g, k)) == if k in SeenKeys(t, s.log) then 1 else 0
  {
    InitOnTrack(t, k);
    RunOnTrack(t, Init(t.cfg), acts, s, k);
    if s.coord.err == Nil {
      NilFindsAll(t, s, k);
    }
  }

  lemma NilFindsAll(t: Search, s: State, k: FileKey)
    requires OnTrack(t, s, k) && s.coord == Returned(Nil)
    ensures Tracked(t, k) && Known(t, s.log, k) ==> k in SeenKeys(t, s.log)
    ensures IsDir(t.g, k) ==> Sum(s.log, OpensKey(t.g, k)) == if k in SeenKeys(t, s.log) then 1 else 0
  {
    QuietPendsNothing(t, s, k);
  }

  // ----- the theorem

  lemma {:induction false} ReachableIsSeen(t: Search, acts: seq<Action>, s: State, p: Path, k: FileKey)
    requires Searches(t) && Run(t.cfg, Init(t.cfg), acts, s) && s.coord == Returned(Nil)
    requires IsPrefix(t.cfg.root, p) && Names(t.g, p, k) && Tracked(t, k)
    ensures k in SeenKeys(t, s.log)
    decreases |p|
  {
    EndOfSearch(t, acts, s, k);
    if p == t.cfg.root {
    } else {
      var parent := Parent(p);
      assert parent[..|t.cfg.root|] == p[..|t.cfg.root|];
      var d := Resolve(t.g, parent).value;
      ReachableIsSeen(t, acts, s, parent, d);
      EndOfSearch(t, acts, s, d);
      var i := SumWitness(s.log, OpensKey(t.g, d));
      LookupFound(t.g.nodes[d].links, p[|p| - 1]);
      assert LinksTo(t.g, d, k);
      assert Opened(s.log[i].dir) in s.log;
    }
  }

  lemma SeenIsReachable(t: Search, acts: seq<Action>, s: State, k: FileKey)
    requires Wraps(t) && Run(t.cfg, Init(t.cfg), acts, s) && k in SeenKeys(t, s.log)
    ensures Reachable(t, k)
  {
    A.SeenWasCalled(t.kind, t.cfg.fs, t.inner, A.NOTHING, s.log, k);
    var c :| Called(c) in s.log && t.cfg.fs.stat(c.path).Some? && t.cfg.fs.stat(c.path).value.key == k;
    Paths.BelowRoot(t.cfg, acts, s, c.path);
    StatFinds(t, c);
    assert Names(t.g, c.path, k);
  }

  lemma SeenExactly(t: Search, acts: seq<Action>, s: State, k: FileKey)
    requires Searches(t) && Run(t.cfg, Init(t.cfg), acts, s) && s.coord == Returned(Nil)
    requires Tracked(t, k)
    ensures k in SeenKeys(t, s.log) <==> Reachable(t, k)
  {
    if k in SeenKeys(t, s.log) {
      SeenIsReachable(t, acts, s, k);
    }
    if Reachable(t, k) {
      var p :| IsPrefix(t.cfg.root, p) && Names(t.g, p, k);
      ReachableIsSeen(t, acts, s, p, k);
    }
  }

  /** The reading of the directory `k` ends in an error. */
  ghost predicate Broken(g: Graph, k: FileKey) {
    IsDir(g, k) && g.nodes[k].err != Nil
  }

  /** On any finite file system with any cycles of links, in every interleaving, the walk returns nil
      if and only if every directory reachable from the root can be read; if not, and the wrapped
      callback lets errors pass, it returns SkipDir. */
  lemma NilExactlyIfReadable(t: Search, acts: seq<Action>, s: State)
    requires Searches(t) && Run(t.cfg, Init(t.cfg), acts, s) && s.coord.Returned?
    ensures s.coord.err == Nil <==> forall k :: Reachable(t, k) ==> !Broken(t.g, k)
    ensures Tolerant(t) ==> s.coord.err == Nil || s.coord.err == SkipDir
  {
    EndOfSearch(t, acts, s, t.g.base);
    if s.coord.err == Nil {
      forall k | Reachable(t, k)
        ensures !Broken(t.g, k)
      {
        NothingBrokenRead(t, acts, s, k);
      }
    } else {
      var i := SumWitness(s.log, OpensBroken(t.g));
      Paths.BelowRoot(t.cfg, acts, s, s.log[i].dir);
      var k := Resolve(t.g, s.log[i].dir).value;
      assert Names(t.g, s.log[i].dir, k);
      assert Reachable(t, k) && Broken(t.g, k);
    }
  }

  lemma NothingBrokenRead(t: Search, acts: seq<Action>, s: State, k: FileKey)
    requires Searches(t) && Run(t.cfg, Init(t.cfg), acts, s) && s.coord == Returned(Nil) && Reachable(t, k)
    ensures !Broken(t.g, k)
  {
    EndOfSearch(t, acts, s, k);
    if Broken(t.g, k) {
      SeenExactly(t, acts, s, k);
      var i := SumWitness(s.log, OpensKey(t.g, k));
      SumAtLeast(s.log, i, OpensBroken(t.g));
    }
  }

  /** ... and if all of them can be read, each has been read exactly once, and no other. */
  lemma EachReachableDirectoryReadOnce(t: Search, acts: seq<Action>, s: State, k: FileKey)
    requires Searches(t) && Run(t.cfg, Init(t.cfg), acts, s) && s.coord.Returned?
    requires forall d :: Reachable(t, d) ==> !Broken(t.g, d)
    ensures s.coord.err == Nil
    ensures IsDir(t.g, k) ==> Sum(s.log, OpensKey(t.g, k)) == if Reachable(t, k) then 1 else 0
  {
    NilExactlyIfReadable(t, acts, s);
    EndOfSearch(t, acts, s, k);
    if IsDir(t.g, k) {
      SeenExactly(t, acts, s, k);
    }
  }

  /** IgnoreDuplicateFiles: in every run of every walk the inner callback is called at most once for
      each file, of any type, and only if it is reachable. */
  lemma EachFileCalledAtMostOnce(t: Search, acts: seq<Action>, s: State, k: FileKey)
    requires Wraps(t) && t.kind.Files? && Run(t.cfg, Init(t.cfg), acts, s)
    ensures var calls := Memory(t, s.log).inner;
            && Sum(calls, A.CallOfKey(t.cfg.fs, k)) <= 1
            && (Sum(calls, A.CallOfKey(t.cfg.fs, k)) > 0 ==> Reachable(t, k))
  {
    A.InnerCalledOncePerSeen(t.cfg.fs, t.inner, A.NOTHING, s.log, k);
    if k in SeenKeys(t, s.log) {
      SeenIsReachable(t, acts, s, k);
    }
  }

  /** ... and if it prunes nothing and every reachable directory can be read, exactly once for each
      file that is reachable through entries that are not broken links. */
  lemma EachReachableFileCalledOnce(t: Search, acts: seq<Action>, s: State, k: FileKey)
    requires Searches(t) && t.kind.Files? && Run(t.cfg, Init(t.cfg), acts, s) && s.coord.Returned?
    requires forall d :: Reachable(t, d) ==> !Broken(t.g, d)
    ensures Sum(Memory(t, s.log).inner, A.CallOfKey(t.cfg.fs, k)) == if Reachable(t, k) then 1 else 0
  {
    NilExactlyIfReadable(t, acts, s);
    SeenExactly(t, acts, s, k);
    A.InnerCalledOncePerSeen(t.cfg.fs, t.inner, A.NOTHING, s.log, k);
  }
}
