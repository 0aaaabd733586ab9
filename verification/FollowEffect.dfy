/** Whether Follow makes a difference to a walk with an adapter. It is documented to make none under
    IgnoreDuplicateDirs; but its check against ancestors also keeps the walk out of the directories above
    the root. */
module FollowEffect {
  import opened Entries
  import opened Protocol
  import opened Ledger
  import opened Graph
  import opened GraphSearch
  import opened Traverse
  import opened AtMostOnce
  import opened ReadOnce
  import A = Adapters
  import C = Consent
  import Paths
  import Unreadable

  /** `k` is a directory above the root. */
  ghost predicate AboveRoot(t: Search, k: FileKey) {
    exists i :: 0 <= i < |t.cfg.root| && Names(t.g, t.cfg.root[..i], k)
  }

  /** Neither the root nor a real directory below it is one above the root: only links lead up. */
  ghost predicate OnlyLinksLeadUp(t: Search) {
    && (forall k :: AboveRoot(t, k) ==> !Names(t.g, t.cfg.root, k))
    && (forall p, e, k ::
          IsPrefix(t.cfg.root, p) && e in List(t.g, p).entries && e.typ == Directory && AboveRoot(t, k) ==>
            !Names(t.g, p + [e.name], k))
  }

  function WithFollow(t: Search, follow: bool): Search {
    t.(cfg := t.cfg.(follow := follow))
  }

  // ----- with Follow

  lemma AboveIsDir(t: Search, k: FileKey)
    requires NamesDir(t.g, t.cfg.root) && AboveRoot(t, k)
    ensures IsDir(t.g, k)
  {
    var i :| 0 <= i < |t.cfg.root| && Names(t.g, t.cfg.root[..i], k);
    PrefixIsDir(t.g, t.cfg.root, i);
  }

  /** An entry that leads up is a link. */
  lemma EntryUpIsLink(t: Search, dir: Path, e: DirEnt, k: FileKey)
    requires Valid(t.g) && OnlyLinksLeadUp(t) && AboveRoot(t, k) && IsDir(t.g, k) && IsPrefix(t.cfg.root, dir)
    requires e in List(t.g, dir).entries && Names(t.g, dir + [e.name], k)
    ensures e.typ == Symlink
  {
    DirOrLink(t.g, dir, e);
  }

  lemma ParentBelow(root: Path, p: Path)
    requires IsPrefix(root, p) && p != root
    ensures IsPrefix(root, Parent(p))
  {
    assert Parent(p)[..|root|] == p[..|root|];
  }

  lemma DirOrLink(g: Graph, dir: Path, e: DirEnt)
    requires Valid(g) && e in List(g, dir).entries && NamesDir(g, dir + [e.name])
    ensures e.typ == Directory || e.typ == Symlink
  {
    var j :| 0 <= j < |List(g, dir).entries| && List(g, dir).entries[j] == e;
    EntryTarget(g, dir, j);
  }

  /** ... and Follow does not traverse it. */
  lemma LinkUpNotTraversed(t: Search, p: Path, k: FileKey)
    requires Wraps(t) && AboveRoot(t, k) && IsPrefix(t.cfg.root, p) && Names(t.g, p, k)
    ensures !ShouldTraverse(t.cfg, p)
  {
    var i :| 0 <= i < |t.cfg.root| && Names(t.g, t.cfg.root[..i], k);
    assert p[..i] == p[..|t.cfg.root|][..i];
    assert t.cfg.fs.stat(p) == Stat(t.g, p) && t.cfg.fs.stat(p[..i]) == Stat(t.g, p[..i]);
    ResolveNode(t.g, p);
    NoAncestorExactly(t.cfg.fs, k, p);
  }

  /** What has been opened is the root or an entry of its directory; if a link, Follow let it pass. */
  lemma OpenedEntry(cfg: Config, acts: seq<Action>, s: State, p: Path) returns (typ: FileType)
    requires Run(cfg, Init(cfg), acts, s) && Opened(p) in s.log
    ensures IsPrefix(cfg.root, p)
    ensures p != cfg.root ==>
              && p != [] && DirEnt(p[|p| - 1], typ) in cfg.fs.list(Parent(p)).entries
              && (typ == Symlink && cfg.follow ==> ShouldTraverse(cfg, p))
  {
    C.InitGood(cfg);
    C.RunGood(cfg, Init(cfg), acts, s);
    Paths.BelowRoot(cfg, acts, s, p);
    var i := C.PermittingCall(cfg, s.log, p);
    assert C.Justified(cfg, s.log[..i], s.log[i]);
    typ := s.log[i].call.typ;
  }

  lemma NotOpenedAbove(t: Search, acts: seq<Action>, s: State, p: Path, k: FileKey)
    requires PassesAll(t) && t.cfg.follow && OnlyLinksLeadUp(t) && AboveRoot(t, k)
    requires Run(t.cfg, Init(t.cfg), acts, s) && Names(t.g, p, k)
    ensures Opened(p) !in s.log
  {
    if Opened(p) in s.log {
      var typ := OpenedEntry(t.cfg, acts, s, p);
      assert t.cfg.fs.list(Parent(p)) == List(t.g, Parent(p));
      AboveIsDir(t, k);
      assert p != t.cfg.root;
      SplitPath(p);
      ParentBelow(t.cfg.root, p);
      EntryUpIsLink(t, Parent(p), DirEnt(p[|p| - 1], typ), k);
      LinkUpNotTraversed(t, p, k);
    }
  }

  /** With Follow no directory above the root is opened. */
  lemma NeverOpensAbove(t: Search, acts: seq<Action>, s: State, k: FileKey)
    requires PassesAll(t) && t.cfg.follow && OnlyLinksLeadUp(t) && AboveRoot(t, k)
    requires Run(t.cfg, Init(t.cfg), acts, s)
    ensures Sum(s.log, OpensKey(t.g, k)) == 0
  {
    if Sum(s.log, OpensKey(t.g, k)) > 0 {
      var j := SumWitness(s.log, OpensKey(t.g, k));
      NotOpenedAbove(t, acts, s, s.log[j].dir, k);
    }
  }

  // ----- with and without

  /** Every run that ends, with Follow or without, opens each directory as often as every other. */
  ghost predicate FollowHasNoEffect(t: Search) {
    forall acts, s, acts', s', k ::
      Ends(WithFollow(t, true), acts, s) && Ends(WithFollow(t, false), acts', s') && IsDir(t.g, k) ==>
        Sum(s.log, OpensKey(t.g, k)) == Sum(s'.log, OpensKey(t.g, k))
  }

  ghost predicate Ends(t: Search, acts: seq<Action>, s: State) {
    Run(t.cfg, Init(t.cfg), acts, s) && s.coord.Returned?
  }

  /** If all reachable directories can be read: Follow makes no difference to what a walk with an adapter
      reads if and only if no directory above the root can be reached from it. */
  lemma FollowHasNoEffectExactly(t: Search)
    requires PassesAll(t) && OnlyLinksLeadUp(t) && forall d :: Reachable(t, d) ==> !Broken(t.g, d)
    ensures FollowHasNoEffect(t) <==> RootApart(t)
  {
    if RootApart(t) {
      forall acts, s, acts', s', k | Ends(WithFollow(t, true), acts, s) && Ends(WithFollow(t, false), acts', s')
                                     && IsDir(t.g, k)
        ensures Sum(s.log, OpensKey(t.g, k)) == Sum(s'.log, OpensKey(t.g, k))
      {
        ReadsReachable(t, true, acts, s, k);
        ReadsReachable(t, false, acts', s', k);
      }
    } else {
      var i, k :| 0 <= i < |t.cfg.root| && Names(t.g, t.cfg.root[..i], k) && Reachable(t, k);
      Differs(t, k);
    }
  }

  lemma ReadsReachable(t: Search, follow: bool, acts: seq<Action>, s: State, k: FileKey)
    requires PassesAll(t) && (follow ==> RootApart(t)) && forall d :: Reachable(t, d) ==> !Broken(t.g, d)
    requires Ends(WithFollow(t, follow), acts, s) && IsDir(t.g, k)
    ensures Sum(s.log, OpensKey(t.g, k)) == if Reachable(t, k) then 1 else 0
  {
    var u := WithFollow(t, follow);
    assert forall d :: Reachable(u, d) <==> Reachable(t, d);
    EachReachableDirectoryReadOnce(u, acts, s, k);
  }

  lemma SameFiles(t: Search, follow: bool)
    requires PassesAll(t)
    ensures PassesAll(WithFollow(t, follow))
    ensures OnlyLinksLeadUp(t) ==> OnlyLinksLeadUp(WithFollow(t, follow))
    ensures forall k :: AboveRoot(t, k) ==> AboveRoot(WithFollow(t, follow), k)
  {
    var u := WithFollow(t, follow);
    assert forall k :: AboveRoot(u, k) <==> AboveRoot(t, k);
  }

  lemma SomeEnd(t: Search) returns (acts: seq<Action>, s: State)
    requires PassesAll(t)
    ensures Ends(t, acts, s)
  {
    acts, s := Unreadable.Finishes(t, [], Init(t.cfg));
  }

  lemma Differs(t: Search, k: FileKey)
    requires PassesAll(t) && OnlyLinksLeadUp(t) && forall d :: Reachable(t, d) ==> !Broken(t.g, d)
    requires AboveRoot(t, k) && Reachable(t, k)
    ensures !FollowHasNoEffect(t)
  {
    SameFiles(t, true);
    SameFiles(t, false);
    AboveIsDir(t, k);
    var acts, s := SomeEnd(WithFollow(t, true));
    var acts', s' := SomeEnd(WithFollow(t, false));
    NeverOpensAbove(WithFollow(t, true), acts, s, k);
    ReadsReachable(t, false, acts', s', k);
  }

  // ----- an input

  const TOP: FileKey := FileKey(0, 2)
  const SUB: FileKey := FileKey(0, 3)
  const DOWN: Link := Link([100], Directory, Some(SUB))
  const UP: Link := Link([117], Symlink, Some(TOP))

  /** A directory "d" that holds a link to the one above it. */
  const UPWARDS: Graph := Graph(TOP, map[TOP := Dir([DOWN], Nil), SUB := Dir([UP], Nil)])

  /** The walk starts in "d". */
  function Example(kind: A.Kind): Search {
    var fs := FileSystemOf(UPWARDS);
    var inner := Unreadable.Silent();
    Search(Config(fs, [[100]], false, 0, 1, A.Wrapped(kind, fs, inner)), UPWARDS, kind, inner)
  }

  lemma ExampleFiles()
    ensures Valid(UPWARDS) && Names(UPWARDS, [[100]], SUB) && Names(UPWARDS, [[100], [117]], TOP)
    ensures DirEnts([DOWN]) == [DirEnt([100], Directory)] && DirEnts([UP]) == [DirEnt([117], Symlink)]
  {
    assert Lookup([DOWN], [100]) == Some(SUB) && Lookup([UP], [117]) == Some(TOP);
    assert Parent([[100]]) == [] && Parent([[100], [117]]) == [[100]];
    assert ValidLinks(UPWARDS, [DOWN]) && ValidLinks(UPWARDS, [UP]);
  }

  lemma ExampleLinks(kind: A.Kind)
    ensures OnlyLinksLeadUp(Example(kind))
  {
    var t := Example(kind);
    ExampleFiles();
    forall k | AboveRoot(t, k)
      ensures k == TOP
    {
      assert t.cfg.root[..0] == [];
    }
    forall p, e | e in List(t.g, p).entries && e.typ == Directory
      ensures Names(t.g, p + [e.name], SUB)
    {
      assert Names(t.g, p, TOP) && e == DirEnt([100], Directory);
      ResolveEntry(t.g, p, 0);
    }
  }

  /** There Follow makes a difference: it keeps the walk out of the directory above. */
  lemma FollowExample(kind: A.Kind)
    ensures PassesAll(Example(kind)) && !FollowHasNoEffect(Example(kind))
  {
    var t := Example(kind);
    ExampleFiles();
    ExampleLinks(kind);
    assert t.cfg.root[..0] == [] && Names(t.g, [], TOP);
    assert IsPrefix(t.cfg.root, [[100], [117]]);
    assert Reachable(t, TOP) && !RootApart(t);
    FollowHasNoEffectExactly(t);
  }
}
