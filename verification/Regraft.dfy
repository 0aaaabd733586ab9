/** Graphs that look alike from the root of a walk, until a certain link is followed: that link is turned
    round to the directory it is in. */
module Regraft {
  import opened Entries
  import opened Graph
  import opened GraphSearch

  // ----- a fresh node

  lemma {:induction false} InodesBounded(keys: set<FileKey>) returns (n: nat)
    ensures forall k :: k in keys ==> k.ino <= n
    decreases |keys|
  {
    if keys == {} {
      n := 0;
    } else {
      var k :| k in keys;
      n := InodesBounded(keys - {k});
      if k.ino > n {
        n := k.ino;
      }
    }
  }

  lemma Fresh(nodes: map<FileKey, Node>) returns (k: FileKey)
    ensures k !in nodes
  {
    var n := InodesBounded(nodes.Keys);
    k := FileKey(0, n + 1);
  }

  // ----- a graph in which `root` leads to `r` through nodes of its own

  /** A new base with one entry, `name`, that leads to the old one. */
  function OneMore(g: Graph, name: Name, f: FileKey): Graph {
    Graph(f, g.nodes[f := Dir([Link(name, Directory, Some(g.base))], Nil)])
  }

  lemma {:induction false} BelowOneMore(g: Graph, name: Name, f: FileKey, p: Path)
    requires Valid(g) && f !in g.nodes
    ensures Resolve(OneMore(g, name, f), [name] + p) == Resolve(g, p)
    decreases |p|
  {
    var h := OneMore(g, name, f);
    if p == [] {
      assert [name] + p == [name] && Parent([name]) == [];
      assert Lookup(h.nodes[f].links, name) == Some(g.base);
    } else {
      assert Parent([name] + p) == [name] + Parent(p) && ([name] + p)[|p|] == p[|p| - 1];
      BelowOneMore(g, name, f, Parent(p));
      if Resolve(g, Parent(p)).Some? {
        ResolveNode(g, Parent(p));
      }
    }
  }

  lemma OneMoreValid(g: Graph, name: Name, f: FileKey)
    requires Valid(g) && f !in g.nodes
    ensures Valid(OneMore(g, name, f))
  {
    var h := OneMore(g, name, f);
    assert ValidLinks(h, h.nodes[f].links);
    forall k | k in h.nodes && h.nodes[k].Dir?
      ensures ValidLinks(h, h.nodes[k].links)
    {
      if k != f {
        assert ValidLinks(g, g.nodes[k].links);
        assert forall i :: 0 <= i < |g.nodes[k].links| ==> ValidLink(g, g.nodes[k].links[i]);
      }
    }
  }

  /** `h` has the nodes of `g`; below `root` it is what `g` is below `r`, above it has nodes of its own. */
  ghost predicate Rebases(g: Graph, h: Graph, r: FileKey, root: Path) {
    && Valid(h)
    && (forall k :: k in g.nodes ==> k in h.nodes && h.nodes[k] == g.nodes[k])
    && (forall p :: Resolve(h, root + p) == Resolve(g.(base := r), p))
    && (forall i :: 0 <= i < |root| && Resolve(h, root[..i]).Some? ==> Resolve(h, root[..i]).value !in g.nodes)
  }

  lemma {:induction false} Rebase(g: Graph, r: FileKey, root: Path) returns (h: Graph)
    requires Valid(g) && IsDir(g, r)
    ensures Rebases(g, h, r, root)
    decreases |root|
  {
    if root == [] {
      h := g.(base := r);
      assert forall k :: k in g.nodes && g.nodes[k].Dir? ==> ValidLinks(g, g.nodes[k].links);
      SameLinksValid(g, h);
      assert forall p: Path :: root + p == p;
    } else {
      var h' := Rebase(g, r, root[1..]);
      var f := Fresh(h'.nodes);
      h := OneMore(h', root[0], f);
      OneMoreValid(h', root[0], f);
      forall p
        ensures Resolve(h, root + p) == Resolve(g.(base := r), p)
      {
        assert root + p == [root[0]] + (root[1..] + p);
        BelowOneMore(h', root[0], f, root[1..] + p);
      }
      forall i | 0 <= i < |root| && Resolve(h, root[..i]).Some?
        ensures Resolve(h, root[..i]).value !in g.nodes
      {
        if i > 0 {
          assert root[..i] == [root[0]] + root[1..][..i - 1];
          BelowOneMore(h', root[0], f, root[1..][..i - 1]);
        }
      }
    }
  }

  lemma SameLinksValid(g: Graph, h: Graph)
    requires Valid(g) && h.nodes == g.nodes && IsDir(h, h.base)
    ensures Valid(h)
  {
    forall k | k in h.nodes && h.nodes[k].Dir?
      ensures ValidLinks(h, h.nodes[k].links)
    {
      assert ValidLinks(g, g.nodes[k].links);
      assert forall i :: 0 <= i < |g.nodes[k].links| ==> ValidLink(g, g.nodes[k].links[i]);
    }
  }

  /** Resolving goes on from the file that a prefix names. */
  lemma {:induction false} ResolveOn(g: Graph, root: Path, r: FileKey, p: Path)
    requires Resolve(g, root) == Some(r)
    ensures Resolve(g, root + p) == Resolve(g.(base := r), p)
    decreases |p|
  {
    if p == [] {
      assert root + p == root;
    } else {
      assert Parent(root + p) == root + Parent(p) && (root + p)[|root + p| - 1] == p[|p| - 1];
      ResolveOn(g, root, r, Parent(p));
    }
  }

  // ----- a link turned round

  /** Link `i` of the directory `d` leads back to `d`. */
  function Turned(h: Graph, d: FileKey, i: nat): Graph
    requires IsDir(h, d) && i < |h.nodes[d].links|
  {
    var n := h.nodes[d];
    h.(nodes := h.nodes[d := Dir(n.links[i := n.links[i].(target := Some(d))], n.err)])
  }

  lemma TurnedValid(h: Graph, d: FileKey, i: nat)
    requires Valid(h) && IsDir(h, d) && i < |h.nodes[d].links| && h.nodes[d].links[i].typ == Symlink
    ensures Valid(Turned(h, d, i))
  {
    var g := Turned(h, d, i);
    forall k | k in g.nodes && g.nodes[k].Dir?
      ensures ValidLinks(g, g.nodes[k].links)
    {
      assert ValidLinks(h, h.nodes[k].links);
      forall j | 0 <= j < |g.nodes[k].links|
        ensures ValidLink(g, g.nodes[k].links[j])
      {
        assert ValidLink(h, h.nodes[k].links[j]);
      }
    }
  }

  /** `p` does not follow the entry `name` of `d`. */
  ghost predicate Avoids(g: Graph, d: FileKey, name: Name, p: Path) {
    forall i :: 0 <= i < |p| ==> !(Names(g, p[..i], d) && p[i] == name)
  }

  lemma {:induction false} LookupOther(links: seq<Link>, i: nat, target: Option<FileKey>, name: Name)
    requires i < |links| && links[i].name != name
    ensures Lookup(links[i := links[i].(target := target)], name) == Lookup(links, name)
  {
    if i == 0 {
    } else {
      LookupOther(links[1..], i - 1, target, name);
      assert links[i := links[i].(target := target)][1..] == links[1..][i - 1 := links[i].(target := target)];
    }
  }

  lemma {:induction false} AvoidingSame(h: Graph, d: FileKey, i: nat, p: Path)
    requires Valid(h) && IsDir(h, d) && i < |h.nodes[d].links| && Avoids(h, d, h.nodes[d].links[i].name, p)
    ensures Resolve(Turned(h, d, i), p) == Resolve(h, p)
    decreases |p|
  {
    if p == [] {
    } else {
      var q, name := Parent(p), p[|p| - 1];
      assert forall j :: 0 <= j < |q| ==> q[..j] == p[..j] && q[j] == p[j];
      AvoidingSame(h, d, i, q);
      assert p[..|p| - 1] == q;
      if Names(h, q, d) {
        LookupOther(h.nodes[d].links, i, Some(d), name);
      }
    }
  }

  lemma TurnedEntries(h: Graph, d: FileKey, i: nat)
    requires IsDir(h, d) && i < |h.nodes[d].links|
    ensures DirEnts(Turned(h, d, i).nodes[d].links) == DirEnts(h.nodes[d].links)
  {
    var links := h.nodes[d].links;
    var turned := links[i := links[i].(target := Some(d))];
    assert |DirEnts(turned)| == |DirEnts(links)|;
    forall j | 0 <= j < |links|
      ensures DirEnts(turned)[j] == DirEnts(links)[j]
    {
    }
  }

  // ----- what the walk from `root` sees

  /** Below the root, `p` does not follow the entry `name` of `d`. */
  ghost predicate Clean(g: Graph, root: Path, d: FileKey, name: Name, p: Path) {
    && IsPrefix(root, p)
    && forall i :: |root| <= i < |p| ==> !(Names(g, p[..i], d) && p[i] == name)
  }

  /** `p` looks the same in both graphs. */
  ghost predicate Alike(g: Graph, g': Graph, p: Path) {
    Resolve(g', p) == Resolve(g, p) && List(g', p) == List(g, p) && Stat(g', p) == Stat(g, p)
  }

  lemma BelowSame(g: Graph, h: Graph, r: FileKey, root: Path, p: Path)
    requires Rebases(g, h, r, root) && Resolve(g, root) == Some(r) && IsPrefix(root, p)
    ensures Resolve(h, p) == Resolve(g, p)
  {
    var q := p[|root|..];
    assert p == root + q;
    ResolveOn(g, root, r, q);
  }

  lemma CleanAvoids(g: Graph, h: Graph, r: FileKey, root: Path, d: FileKey, name: Name, p: Path)
    requires Rebases(g, h, r, root) && Resolve(g, root) == Some(r) && d in g.nodes && Clean(g, root, d, name, p)
    ensures Avoids(h, d, name, p)
  {
    forall i | 0 <= i < |p|
      ensures !(Names(h, p[..i], d) && p[i] == name)
    {
      if i < |root| {
        assert p[..i] == root[..i];
      } else {
        assert p[..i][..|root|] == root;
        BelowSame(g, h, r, root, p[..i]);
      }
    }
  }

  /** The graph with link `i` of `d` turned round: what avoids the link looks the same, and the link leads
      to `d` again. */
  lemma Regrafted(g: Graph, root: Path, d: FileKey, i: nat) returns (g': Graph)
    requires Valid(g) && NamesDir(g, root) && IsDir(g, d)
    requires i < |g.nodes[d].links| && g.nodes[d].links[i].typ == Symlink
    ensures Valid(g')
    ensures var name := g.nodes[d].links[i].name;
            forall p :: Clean(g, root, d, name, p) ==>
              Alike(g, g', p) && (Names(g, p, d) ==> Names(g', p + [name], d))
  {
    var r, name := Resolve(g, root).value, g.nodes[d].links[i].name;
    var h := Rebase(g, r, root);
    g' := Turned(h, d, i);
    TurnedValid(h, d, i);
    forall p | Clean(g, root, d, name, p)
      ensures Alike(g, g', p) && (Names(g, p, d) ==> Names(g', p + [name], d))
    {
      BelowSame(g, h, r, root, p);
      CleanAvoids(g, h, r, root, d, name, p);
      AvoidingSame(h, d, i, p);
      if Resolve(g, p).Some? {
        ResolveNode(g, p);
        TurnedEntries(h, d, i);
        if Names(g, p, d) {
          ResolveEntry(g', p, i);
        }
      }
    }
  }
}
