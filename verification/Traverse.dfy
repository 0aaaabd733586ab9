/** shouldTraverse as the loop over the lexical parents that it is. */
module Traverse {
  import opened Entries
  import opened Protocol

  /** The check in full: all proper prefixes can be statted, and none of them is the file `key`. */
  lemma {:induction false} NoAncestorExactly(fs: FileSystem, key: FileKey, path: Path)
    ensures NoAncestorIs(fs, key, path) <==>
            forall i :: 0 <= i < |path| ==> fs.stat(path[..i]).Some? && fs.stat(path[..i]).value.key != key
    decreases |path|
  {
    if path == [] {
    } else {
      var parent := Parent(path);
      NoAncestorExactly(fs, key, parent);
      assert forall i :: 0 <= i < |parent| ==> parent[..i] == path[..i];
      assert path[..|path| - 1] == parent;
    }
  }

  /** What becomes of an entry that is no directory, once the callback has answered `r`. Without Follow a
      link is queued exactly if the answer asks for it; with Follow, exactly if the answer does not forbid
      it and the link leads to a directory that no path above it leads to, all of which can be statted. The
      sentinels for directories are no errors for a link; any other answer is passed on as it is. */
  lemma EntryIsQueuedExactly(cfg: Config, typ: FileType, path: Path, r: Error)
    requires IsPrefix(cfg.root, path) && path != cfg.root
    ensures Decide(cfg, typ, path, r).enqueue <==>
              && typ == Symlink
              && if !cfg.follow then r == TraverseLink
                 else
                   && (r == Nil || r == TraverseLink)
                   && cfg.fs.stat(path).Some? && cfg.fs.stat(path).value.typ == Directory
                   && forall i :: 0 <= i < |path| ==>
                        cfg.fs.stat(path[..i]).Some? && cfg.fs.stat(path[..i]).value.key != cfg.fs.stat(path).value.key
    ensures Decide(cfg, typ, path, r).err
         == if typ == Symlink && (r == TraverseLink || r == SkipDir) then Nil else r
  {
    if cfg.fs.stat(path).Some? {
      NoAncestorExactly(cfg.fs, cfg.fs.stat(path).value.key, path);
      assert path[..|cfg.root|] == cfg.root;
    }
  }

  method ShouldTraverseLink(cfg: Config, link: Path) returns (ok: bool)
    ensures ok == ShouldTraverse(cfg, link)
  {
    var ts := cfg.fs.stat(link);
    if ts.None? {
      return false;
    }
    if ts.value.typ != Directory {
      return false;
    }
    if ShouldSkipDir(cfg, ts.value.key) {
      return false;
    }
    var path := link;
    while true
      invariant NoAncestorIs(cfg.fs, ts.value.key, link) == NoAncestorIs(cfg.fs, ts.value.key, path)
      decreases |path|
    {
      var parent := Parent(path);
      if parent == path {
        return true;
      }
      var parentInfo := cfg.fs.stat(parent);
      if parentInfo.None? {
        return false;
      }
      if ts.value.key == parentInfo.value.key {
        return false;
      }
      path := parent;
    }
  }
}
