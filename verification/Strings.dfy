/** Paths as strings on Unix: joinPaths, cleanRootPath, and why distinct paths have distinct
    strings; and itoa. */
module Strings {
  import opened Entries
  import opened Protocol
  import opened Ownership
  import Paths

  type String = seq<byte>

  const SLASH: byte := 47

  function JoinPaths(dir: String, base: Name): String {
    if |dir| != 0 && dir[|dir| - 1] == SLASH then dir + base else dir + [SLASH] + base
  }

  /** Drops trailing slashes, but for one if there is nothing else. */
  method CleanRootPath(root: String) returns (r: String)
    ensures IsPrefix(r, root) && forall i :: |r| <= i < |root| ==> root[i] == SLASH
    ensures Clean(r)
    ensures root != [] ==> r != []
    ensures Clean(root) ==> r == root
  {
    var i := |root| - 1;
    while i >= 0
      invariant -1 <= i < |root|
      invariant forall j :: i < j < |root| ==> root[j] == SLASH
    {
      if root[i] != SLASH {
        return root[..i + 1];
      }
      i := i - 1;
    }
    if root != [] {
      return root[0..1];
    }
    return root;
  }

  /** A root as cleanRootPath leaves it. */
  predicate Clean(root: String) {
    root == [] || root == [SLASH] || root[|root| - 1] != SLASH
  }

  /** The string for the entry at `names` below `root`, joined name by name. */
  function Render(root: String, names: Path): String {
    if names == [] then root else JoinPaths(Render(root, names[..|names| - 1]), names[|names| - 1])
  }

  ghost predicate ProperName(name: Name) {
    name != [] && SLASH !in name
  }

  ghost predicate ProperNames(names: Path) {
    forall i :: 0 <= i < |names| ==> ProperName(names[i])
  }

  lemma ProperInit(names: Path)
    requires ProperNames(names) && names != []
    ensures ProperNames(names[..|names| - 1]) && ProperName(names[|names| - 1])
  {
  }

  /** Below the root no string ends in a slash, and each is longer than the root. */
  lemma RenderEnds(root: String, names: Path)
    requires Clean(root) && ProperNames(names) && names != []
    ensures Render(root, names) != [] && Render(root, names)[|Render(root, names)| - 1] != SLASH
    ensures |Render(root, names)| > |root|
    decreases |names|
  {
    ProperInit(names);
    var init := names[..|names| - 1];
    if init == [] {
    } else {
      RenderEnds(root, init);
    }
  }

  /** A joined string splits at its last slash, into the directory without a trailing slash and the
      name. */
  function Stem(dir: String): String {
    if dir == [SLASH] then [] else dir
  }

  lemma JoinIsStemSlashName(dir: String, name: Name)
    requires dir == [SLASH] || dir == [] || dir[|dir| - 1] != SLASH
    ensures JoinPaths(dir, name) == Stem(dir) + [SLASH] + name
  {
  }

  lemma LastSlash(a: String, m: Name, b: String, n: Name)
    requires SLASH !in m && SLASH !in n && a + [SLASH] + m == b + [SLASH] + n
    ensures a == b && m == n
  {
    var s := a + [SLASH] + m;
    assert s[|a|] == SLASH && s[|b|] == SLASH;
    assert |a| == |b|;
    assert a == s[..|a|] == b;
    assert m == s[|a| + 1..] == n;
  }

  lemma RenderIsClean(root: String, names: Path)
    requires Clean(root) && ProperNames(names)
    ensures Clean(Render(root, names))
  {
    if names != [] {
      RenderEnds(root, names);
    }
  }

  /** joinPaths is injective below a clean root: different entries have different path strings. */
  lemma {:induction false} RenderInjective(root: String, p: Path, q: Path)
    requires Clean(root) && ProperNames(p) && ProperNames(q) && Render(root, p) == Render(root, q)
    ensures p == q
    decreases |p|
  {
    if p == [] {
      if q != [] {
        RenderEnds(root, q);
      }
    } else if q == [] {
      RenderEnds(root, p);
    } else {
      var p', q' := p[..|p| - 1], q[..|q| - 1];
      ProperInit(p);
      ProperInit(q);
      LastInjective(root, p', p[|p| - 1], q', q[|q| - 1]);
      RenderInjective(root, p', q');
      assert p == p' + [p[|p| - 1]] && q == q' + [q[|q| - 1]];
    }
  }

  lemma LastInjective(root: String, p: Path, m: Name, q: Path, n: Name)
    requires Clean(root) && ProperNames(p) && ProperNames(q) && ProperName(m) && ProperName(n)
    requires JoinPaths(Render(root, p), m) == JoinPaths(Render(root, q), n)
    ensures Render(root, p) == Render(root, q) && m == n
  {
    RenderIsClean(root, p);
    RenderIsClean(root, q);
    JoinIsStemSlashName(Render(root, p), m);
    JoinIsStemSlashName(Render(root, q), n);
    LastSlash(Stem(Render(root, p)), m, Stem(Render(root, q)), n);
    StemInjective(root, p, q);
  }

  /** Only the root itself can be "/", so nothing is lost with its slash. */
  lemma StemInjective(root: String, p: Path, q: Path)
    requires Clean(root) && ProperNames(p) && ProperNames(q)
    requires Stem(Render(root, p)) == Stem(Render(root, q))
    ensures Render(root, p) == Render(root, q)
  {
    if p != [] {
      RenderEnds(root, p);
    }
    if q != [] {
      RenderEnds(root, q);
    }
  }

  /** A slash before each name. */
  function SlashNames(names: Path): String {
    if names == [] then [] else [47] + names[0] + SlashNames(names[1..])
  }

  lemma {:induction false} SlashLast(names: Path, name: Name)
    ensures SlashNames(names + [name]) == SlashNames(names) + [47] + name
  {
    if names == [] {
      assert SlashNames([name]) == [47] + name + SlashNames([]);
    } else {
      SlashLast(names[1..], name);
      assert (names + [name])[1..] == names[1..] + [name];
    }
  }

  /** The last name: `stem` is what comes before its slash. */
  lemma RenderLast(root: String, init: Path, last: Name)
    requires Clean(root) && ProperNames(init)
    ensures Render(root, init + [last]) == Stem(Render(root, init)) + [47] + last
    ensures init != [] ==> Stem(Render(root, init)) == Render(root, init)
  {
    RenderIsClean(root, init);
    JoinIsStemSlashName(Render(root, init), last);
    assert (init + [last])[..|init|] == init;
    if init != [] {
      RenderEnds(root, init);
    }
  }

  /** The string of an entry is that of the root, unless that is "/", with a slash before each name. */
  lemma {:induction false} RenderIs(root: String, names: Path)
    requires (root == [] || root == [47] || root[|root| - 1] != 47) && ProperNames(names) && names != []
    ensures Render(root, names) == (if root == [47] then [] else root) + SlashNames(names)
    decreases |names|
  {
    var init, last := names[..|names| - 1], names[|names| - 1];
    ProperInit(names);
    assert names == init + [last];
    SlashLast(init, last);
    RenderLast(root, init, last);
    var stem := if root == [47] then [] else root;
    if init == [] {
      Appended(stem, [], last);
    } else {
      RenderIs(root, init);
      Appended(stem, SlashNames(init), last);
    }
  }

  lemma Appended(a: String, b: String, c: String)
    ensures a + b + [47] + c == a + (b + [47] + c)
    ensures a + [47] + c == a + ([] + [47] + c)
  {
  }

  /** Directories hold entries with different, proper names. */
  ghost predicate ProperlyNamed(fs: FileSystem) {
    && UniquelyNamed(fs)
    && forall p, e :: e in fs.list(p).entries ==> ProperName(e.name)
  }

  /** The names of a path below the root are proper. */
  ghost function ProperBelow(root: Path): Paths.PathProperty {
    (p: Path) => IsPrefix(root, p) && ProperNames(p[|root|..])
  }

  lemma CallIsProper(cfg: Config, acts: seq<Action>, s: State, c: Call)
    requires ProperlyNamed(cfg.fs) && Run(cfg, Init(cfg), acts, s) && Called(c) in s.log
    ensures IsPrefix(cfg.root, c.path) && ProperNames(c.path[|cfg.root|..])
  {
    var holds := ProperBelow(cfg.root);
    forall dir, e | holds(dir) && e in cfg.fs.list(dir).entries
      ensures holds(dir + [e.name])
    {
      assert (dir + [e.name])[..|cfg.root|] == dir[..|cfg.root|];
      assert (dir + [e.name])[|cfg.root|..] == dir[|cfg.root|..] + [e.name];
    }
    Paths.EveryCall(cfg, holds, acts, s, c);
  }

  /** No string is passed to the callback twice without an error, in any run of any walk. */
  lemma NoPathStringTwice(cfg: Config, acts: seq<Action>, s: State, root: String, i: nat, j: nat)
    requires ProperlyNamed(cfg.fs) && Clean(root) && Run(cfg, Init(cfg), acts, s)
    requires i < j < |s.log| && s.log[i].Called? && s.log[j].Called?
    requires s.log[i].call.err == Nil && s.log[j].call.err == Nil
    ensures var p, q := s.log[i].call.path, s.log[j].call.path;
            && IsPrefix(cfg.root, p) && IsPrefix(cfg.root, q)
            && Render(root, p[|cfg.root|..]) != Render(root, q[|cfg.root|..])
  {
    var p, q := s.log[i].call.path, s.log[j].call.path;
    assert s.log[i] in s.log && s.log[j] in s.log;
    CallIsProper(cfg, acts, s, s.log[i].call);
    CallIsProper(cfg, acts, s, s.log[j].call);
    CallsAreDistinct(cfg, acts, s, i, j);
    if Render(root, p[|cfg.root|..]) == Render(root, q[|cfg.root|..]) {
      RenderInjective(root, p[|cfg.root|..], q[|cfg.root|..]);
      SamePath(cfg.root, p, q);
    }
  }

  lemma SamePath(root: Path, p: Path, q: Path)
    requires IsPrefix(root, p) && IsPrefix(root, q) && p[|root|..] == q[|root|..]
    ensures p == q
  {
    assert p == p[..|root|] + p[|root|..] && q == q[..|root|] + q[|root|..];
  }

  // ----- itoa

  const ZERO: byte := 48

  function Digits(val: nat): String {
    if val < 10 then [(val + 48) as byte] else Digits(val / 10) + [(val % 10 + 48) as byte]
  }

  function Decimal(s: String): int {
    if s == [] then 0 else 10 * Decimal(s[..|s| - 1]) + (s[|s| - 1] as int - 48)
  }

  /** The digits denote the number, there is no leading zero, and a uint64 has at most 20. */
  lemma {:induction false} DigitsDenote(val: nat, k: nat)
    requires val < Power10(k) && k > 0
    ensures Decimal(Digits(val)) == val && 0 < |Digits(val)| <= k
    ensures val > 0 ==> Digits(val)[0] != ZERO
    ensures forall i :: 0 <= i < |Digits(val)| ==> 48 <= Digits(val)[i] <= 57
    decreases val
  {
    if val >= 10 {
      DigitsDenote(val / 10, k - 1);
      var d := Digits(val / 10);
      assert Digits(val)[..|d|] == d;
    } else {
      assert Decimal([]) == 0;
      assert Digits(val)[..0] == [];
    }
  }

  function Power10(k: nat): nat {
    if k == 0 then 1 else 10 * Power10(k - 1)
  }

  lemma TwentyDigits()
    ensures 0x1_0000_0000_0000_0000 <= Power10(20)
  {
    assert Power10(5) == 100000;
    assert Power10(10) == 10000000000;
    assert Power10(15) == 1000000000000000;
  }

  lemma LastDigit(val: nat, tail: String)
    requires val >= 10
    ensures Digits(val) + tail == Digits(val / 10) + ([(val % 10 + 48) as byte] + tail)
  {
  }

  /** itoa fills its buffer of 20 bytes from the end, and the buffer is large enough. */
  method Itoa(n: nat) returns (r: String)
    requires n < 0x1_0000_0000_0000_0000
    ensures r == Digits(n)
  {
    var buf := new byte[20];
    var i: int := buf.Length - 1;
    var val: nat := n;
    TwentyDigits();
    while val >= 10
      invariant 0 <= i < 20 && val < Power10(i + 1)
      invariant Digits(n) == Digits(val) + buf[i + 1..]
      decreases val
    {
      LastDigit(val, buf[i + 1..]);
      Put(buf, i, (val % 10 + 48) as byte);
      i := i - 1;
      val := val / 10;
    }
    Put(buf, i, (val + 48) as byte);
    return buf[i..];
  }

  /** Writes a digit before those that have been written. */
  method Put(buf: array<byte>, i: nat, digit: byte)
    requires i < buf.Length
    modifies buf
    ensures buf[i..] == [digit] + old(buf[i + 1..])
  {
    buf[i] := digit;
    assert buf[i + 1..] == old(buf[i + 1..]);
    assert buf[i..] == [buf[i]] + buf[i + 1..];
  }
}
