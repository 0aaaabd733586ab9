/** With Follow on, the check against the lexical ancestors makes every walk of a finite file
    system terminate, whatever the callback does. */
module Follow {
  import opened Entries
  import opened Protocol
  import opened SequentialWalk
  import opened Termination
  import opened Possible
  import opened Graph

  /** The directories that the prefixes of `p` name. */
  ghost function Ancestors(g: Graph, p: Path): set<FileKey>
    decreases |p|
  {
    (if p == [] then {} else Ancestors(g, Parent(p)))
    + (if Resolve(g, p).Some? then {Resolve(g, p).value} else {})
  }

  /** The real directories form a hierarchy of height at most `top`: every entry of type directory
      leads to a directory of smaller height. */
  ghost predicate Hierarchy(g: Graph, height: FileKey -> nat, top: nat) {
    && (forall k :: IsDir(g, k) ==> height(k) <= top)
    && (forall k, i ::
          IsDir(g, k) && 0 <= i < |g.nodes[k].links| && g.nodes[k].links[i].typ == Directory
          && g.nodes[k].links[i].target.Some?
          ==> height(g.nodes[k].links[i].target.value) < height(k))
  }

  /** The check against ancestors is a check against all of them. */
  lemma {:induction false} NoAncestorMeansNew(g: Graph, key: FileKey, p: Path)
    requires p != [] && NoAncestorIs(FileSystemOf(g), key, p)
    ensures key !in Ancestors(g, Parent(p))
    decreases |p|
  {
    var parent := Parent(p);
    assert FileSystemOf(g).stat(parent) == Stat(g, parent);
    if parent == [] {
    } else {
      NoAncestorMeansNew(g, key, parent);
    }
  }

  lemma {:induction false} AncestorsAreDirs(g: Graph, p: Path)
    requires Valid(g) && Resolve(g, p).Some? && IsDir(g, Resolve(g, p).value)
    ensures Ancestors(g, p) <= DirKeys(g)
    decreases |p|
  {
    if p == [] {
    } else {
      AncestorsAreDirs(g, Parent(p));
    }
  }

  ghost predicate IsDirItem(g: Graph, it: Item) {
    Resolve(g, it.dir).Some? && IsDir(g, Resolve(g, it.dir).value)
  }

  /** Directories not yet on the path first, then the height of the directory at its end. */
  ghost function Room(g: Graph, height: FileKey -> nat, top: nat, p: Path): nat
    requires Resolve(g, p).Some?
  {
    |DirKeys(g) - Ancestors(g, p)| * (top + 1) + height(Resolve(g, p).value) + 1
  }

  lemma SmallerSet(a: set<FileKey>, b: set<FileKey>, x: FileKey)
    requires x in b && a <= b - {x}
    ensures |a| < |b|
  {
    SubsetSize(a, b - {x});
  }

  lemma {:induction false} SubsetSize(a: set<FileKey>, b: set<FileKey>)
    requires a <= b
    ensures |a| <= |b|
  {
    if a != {} {
      var x :| x in a;
      SubsetSize(a - {x}, b - {x});
    }
  }

  lemma LessRoom(n: nat, n': nat, h: nat, h': nat, top: nat)
    requires (n' < n && h' <= top) || (n' <= n && h' < h)
    ensures n' * (top + 1) + h' + 1 <= n * (top + 1) + h
  {
    if n' < n {
      assert n' * (top + 1) + (top + 1) == (n' + 1) * (top + 1) <= n * (top + 1);
    } else {
      assert n' == n;
    }
  }

  /** A followed link leads to a directory that is new on the path; a real directory is lower. */
  lemma StepHasLessRoom(cfg: Config, g: Graph, height: FileKey -> nat, top: nat, it: Item, i: nat)
    requires Valid(g) && Hierarchy(g, height, top) && cfg.fs == FileSystemOf(g) && cfg.follow
    requires IsDirItem(g, it) && i < |g.nodes[Resolve(g, it.dir).value].links|
    requires MayEnqueue(cfg, false, it, DirEnts(g.nodes[Resolve(g, it.dir).value].links)[i])
    ensures var p := it.dir + [g.nodes[Resolve(g, it.dir).value].links[i].name];
            && Resolve(g, p).Some? && IsDir(g, Resolve(g, p).value)
            && Room(g, height, top, p) < Room(g, height, top, it.dir)
  {
    var k := Resolve(g, it.dir).value;
    var l := g.nodes[k].links[i];
    var p := it.dir + [l.name];
    ResolveEntry(g, it.dir, i);
    ParentOf(it.dir, l.name);
    assert cfg.fs.stat(p) == Stat(g, p);
    assert ValidLink(g, l);
    var t := Resolve(g, p).value;
    assert Ancestors(g, p) == Ancestors(g, it.dir) + {t};
    var left, left' := DirKeys(g) - Ancestors(g, it.dir), DirKeys(g) - Ancestors(g, p);
    if l.typ == Directory {
      SubsetSize(left', left);
    } else {
      NoAncestorMeansNew(g, t, p);
      SmallerSet(left', left, t);
    }
    LessRoom(|left|, |left'|, height(k), height(t), top);
  }

  lemma {:induction false} FollowTree(cfg: Config, g: Graph, height: FileKey -> nat, top: nat, it: Item, n: nat)
    requires Valid(g) && Hierarchy(g, height, top) && cfg.fs == FileSystemOf(g) && cfg.follow
    requires IsDirItem(g, it) && Room(g, height, top, it.dir) <= n
    ensures Complete(PossibleKids(cfg, false), it, n)
    decreases n
  {
    var kids := PossibleKids(cfg, false)(it);
    forall j | 0 <= j < |kids|
      ensures Complete(PossibleKids(cfg, false), kids[j], n - 1)
    {
      KidHasLessRoom(cfg, g, height, top, it, j);
      FollowTree(cfg, g, height, top, kids[j], n - 1);
    }
  }

  lemma KidHasLessRoom(cfg: Config, g: Graph, height: FileKey -> nat, top: nat, it: Item, j: nat)
    requires Valid(g) && Hierarchy(g, height, top) && cfg.fs == FileSystemOf(g) && cfg.follow
    requires IsDirItem(g, it) && j < |PossibleKids(cfg, false)(it)|
    ensures var kid := PossibleKids(cfg, false)(it)[j];
            IsDirItem(g, kid) && Room(g, height, top, kid.dir) < Room(g, height, top, it.dir)
  {
    var kid := PossibleKids(cfg, false)(it)[j];
    var i := KidEntry(cfg, it, j);
    assert cfg.fs.list(it.dir) == List(g, it.dir);
    StepHasLessRoom(cfg, g, height, top, it, i);
  }

  /** The entry that a possible item comes from. */
  lemma KidEntry(cfg: Config, it: Item, j: nat) returns (i: nat)
    requires j < |PossibleKids(cfg, false)(it)|
    ensures i < |cfg.fs.list(it.dir).entries|
    ensures var e := cfg.fs.list(it.dir).entries[i];
            MayEnqueue(cfg, false, it, e) && PossibleKids(cfg, false)(it)[j] == ChildItem(it, e)
  {
    var entries, kid := cfg.fs.list(it.dir).entries, PossibleKids(cfg, false)(it)[j];
    PossibleFromMember(cfg, false, it, entries, kid);
    var e :| e in entries && MayEnqueue(cfg, false, it, e) && kid == ChildItem(it, e);
    i :| 0 <= i < |entries| && entries[i] == e;
  }

  /** A root that is no directory has no entries. */
  lemma PlainRootTree(cfg: Config, g: Graph, it: Item)
    requires cfg.fs == FileSystemOf(g) && !IsDirItem(g, it)
    ensures Complete(PossibleKids(cfg, false), it, 1)
  {
  }

  lemma {:induction false} BaseIsAncestor(g: Graph, p: Path)
    ensures g.base in Ancestors(g, p)
    decreases |p|
  {
    if p == [] {
    } else {
      BaseIsAncestor(g, Parent(p));
    }
  }

  lemma RootRoom(g: Graph, height: FileKey -> nat, top: nat, p: Path)
    requires Valid(g) && Hierarchy(g, height, top)
    requires Resolve(g, p).Some? && IsDir(g, Resolve(g, p).value)
    ensures Room(g, height, top, p) <= |DirKeys(g)| * (top + 1)
  {
    assert g.base in DirKeys(g);
    BaseIsAncestor(g, p);
    SmallerSet(DirKeys(g) - Ancestors(g, p), DirKeys(g), g.base);
    LessRoom(|DirKeys(g)|, |DirKeys(g) - Ancestors(g, p)|, 0, height(Resolve(g, p).value), top);
  }

  lemma RootTree(cfg: Config, g: Graph, height: FileKey -> nat, top: nat, root: Item)
    requires Valid(g) && Hierarchy(g, height, top) && cfg.fs == FileSystemOf(g) && cfg.follow
    ensures Complete(PossibleKids(cfg, false), root, |DirKeys(g)| * (top + 1))
  {
    if IsDirItem(g, root) {
      RootRoom(g, height, top, root.dir);
      FollowTree(cfg, g, height, top, root, |DirKeys(g)| * (top + 1));
    } else {
      PlainRootTree(cfg, g, root);
      RootRoom(g, height, top, []);
      MoreDepth(PossibleKids(cfg, false), OwnSteps(cfg), root, 1, |DirKeys(g)| * (top + 1));
    }
  }

  /** Follow on, finite file system, any callback, any scheduler: every run is finite, and a path
      is less than (number of directories) * (height of the hierarchy + 1) names long. */
  lemma FollowTerminates(cfg: Config, g: Graph, height: FileKey -> nat, top: nat, root: Item,
                         acts: seq<Action>, s: State)
    requires Valid(g) && Hierarchy(g, height, top) && cfg.fs == FileSystemOf(g) && cfg.follow
    requires Starts(cfg, root) && Run(cfg, Init(cfg), acts, s)
    ensures |acts| <= StepBound(cfg, PossibleKids(cfg, false), root, |DirKeys(g)| * (top + 1))
    ensures forall it :: Picked(it) in s.log ==> |it.dir| < |cfg.root| + |DirKeys(g)| * (top + 1)
  {
    RootTree(cfg, g, height, top, root);
    BoundedTree(cfg, false, root, |DirKeys(g)| * (top + 1), acts, s);
  }
}
