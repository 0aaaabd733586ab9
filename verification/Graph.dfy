/** A static file system of inodes: directories hold named links to files; real directories and
    symbolic links are both such edges, the latter to anything or to nothing. */
module Graph {
  import opened Entries

  /** A directory entry and what os.Stat finds behind it (nothing, if it is a broken link). */
  datatype Link = Link(name: Name, typ: FileType, target: Option<FileKey>)

  /** `err` is the error that ends the reading of a directory after its links, `Nil` if there is none.
      A directory that cannot be opened has no links. */
  datatype Node = Dir(links: seq<Link>, err: Error) | Plain(typ: FileType)

  /** `base` is the directory that the empty path names. */
  datatype Graph = Graph(base: FileKey, nodes: map<FileKey, Node>)

  predicate IsDir(g: Graph, k: FileKey) {
    k in g.nodes && g.nodes[k].Dir?
  }

  ghost function DirKeys(g: Graph): set<FileKey> {
    set k | k in g.nodes && g.nodes[k].Dir?
  }

  function KindOf(g: Graph, k: FileKey): FileType
    requires k in g.nodes
  {
    match g.nodes[k]
    case Dir(_, _) => Directory
    case Plain(typ) => typ
  }

  ghost predicate ValidLink(g: Graph, l: Link) {
    && (l.typ != Symlink ==> l.target.Some?)
    && (l.target.Some? ==> l.target.value in g.nodes)
    && (l.typ != Symlink ==> KindOf(g, l.target.value) == l.typ)
  }

  ghost predicate ValidLinks(g: Graph, links: seq<Link>) {
    && (forall i :: 0 <= i < |links| ==> ValidLink(g, links[i]))
    && (forall i, j :: 0 <= i < j < |links| ==> links[i].name != links[j].name)
  }

  ghost predicate Valid(g: Graph) {
    && IsDir(g, g.base)
    && (forall k :: k in g.nodes && g.nodes[k].Dir? ==> ValidLinks(g, g.nodes[k].links))
    && (forall k :: k in g.nodes && g.nodes[k].Plain? ==> g.nodes[k].typ == Regular || g.nodes[k].typ == Irregular)
  }

  function Lookup(links: seq<Link>, name: Name): Option<FileKey> {
    if links == [] then None
    else if links[0].name == name then links[0].target
    else Lookup(links[1..], name)
  }

  /** The file a path names, symbolic links followed. */
  function Resolve(g: Graph, p: Path): Option<FileKey>
    decreases |p|
  {
    if p == [] then Some(g.base)
    else
      match Resolve(g, Parent(p))
      case None => None
      case Some(k) => if IsDir(g, k) then Lookup(g.nodes[k].links, p[|p| - 1]) else None
  }

  function Stat(g: Graph, p: Path): Option<FileInfo> {
    match Resolve(g, p)
    case None => None
    case Some(k) => if k in g.nodes then Some(FileInfo(k, KindOf(g, k))) else None
  }

  function DirEnts(links: seq<Link>): (r: seq<DirEnt>)
    ensures |r| == |links|
    ensures forall i :: 0 <= i < |links| ==> r[i] == DirEnt(links[i].name, links[i].typ)
  {
    if links == [] then [] else [DirEnt(links[0].name, links[0].typ)] + DirEnts(links[1..])
  }

  const NOT_A_DIRECTORY: Error := Failure(20)

  function List(g: Graph, p: Path): Listing {
    match Resolve(g, p)
    case None => Listing([], NOT_A_DIRECTORY)
    case Some(k) =>
      if IsDir(g, k) then Listing(DirEnts(g.nodes[k].links), g.nodes[k].err) else Listing([], NOT_A_DIRECTORY)
  }

  function FileSystemOf(g: Graph): FileSystem {
    FileSystem((p: Path) => List(g, p), (p: Path) => Stat(g, p))
  }

  lemma {:induction false} LookupFinds(links: seq<Link>, i: nat)
    requires i < |links|
    requires forall i, j :: 0 <= i < j < |links| ==> links[i].name != links[j].name
    ensures Lookup(links, links[i].name) == links[i].target
  {
    if i == 0 {
    } else {
      LookupFinds(links[1..], i - 1);
    }
  }

  lemma {:induction false} LookupFound(links: seq<Link>, name: Name)
    requires Lookup(links, name).Some?
    ensures exists i :: 0 <= i < |links| && links[i].name == name && links[i].target == Lookup(links, name)
  {
    if links[0].name != name {
      LookupFound(links[1..], name);
      var i :| 0 <= i < |links[1..]| && links[1..][i].name == name && links[1..][i].target == Lookup(links, name);
      assert links[i + 1].name == name;
    }
  }

  /** A path that names something names a node. */
  lemma {:induction false} ResolveNode(g: Graph, p: Path)
    requires Valid(g) && Resolve(g, p).Some?
    ensures Resolve(g, p).value in g.nodes
    decreases |p|
  {
    if p != [] {
      var k := Resolve(g, Parent(p)).value;
      LookupFound(g.nodes[k].links, p[|p| - 1]);
    }
  }

  lemma ParentOf(p: Path, name: Name)
    ensures Parent(p + [name]) == p && (p + [name])[|p|] == name
  {
  }

  lemma SplitPath(p: Path)
    requires p != []
    ensures p == Parent(p) + [p[|p| - 1]]
  {
  }

  /** Following one entry of a directory. */
  lemma ResolveEntry(g: Graph, p: Path, i: nat)
    requires Valid(g) && Resolve(g, p).Some? && IsDir(g, Resolve(g, p).value)
    requires i < |g.nodes[Resolve(g, p).value].links|
    ensures var l := g.nodes[Resolve(g, p).value].links[i];
            Resolve(g, p + [l.name]) == l.target
  {
    var links := g.nodes[Resolve(g, p).value].links;
    ParentOf(p, links[i].name);
    LookupFinds(links, i);
  }
}
